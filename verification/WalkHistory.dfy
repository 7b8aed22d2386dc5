/** What every run of the walk has done: starts respect the dependencies, happen once, and a
    failure keeps everything above it from starting. */
module WalkHistory {
  import opened Graphs
  import opened ReadySets
  import opened Walks
  import opened WalkPlaces

  ghost predicate BegunIn(log: seq<Event>, n: Node) {
    exists i :: 0 <= i < |log| && log[i].Began? && log[i].node == n
  }

  ghost predicate StartsOnce(log: seq<Event>) {
    forall i, j :: 0 <= i < j < |log| && log[i].Began? && log[j].Began? ==> log[i].node != log[j].node
  }

  /** `f` is called on a node after it returned on each dependency. */
  ghost predicate StartsAfterDependencies(g: Graph, log: seq<Event>) {
    forall i, d :: 0 <= i < |log| && log[i].Began? && Edge(g, log[i].node, d) ==> Ended(d) in log[..i]
  }

  ghost predicate EndsAfterStart(log: seq<Event>) {
    forall i :: 0 <= i < |log| && log[i].Ended? ==> BegunIn(log[..i], log[i].node)
  }

  ghost predicate EndedAt(p: Place, workers: seq<Worker>) {
    p == Finishing || p == Finished || (p.Held? && p.worker < |workers| && workers[p.worker].Returned?)
  }

  ghost predicate FailedAt(p: Place, workers: seq<Worker>) {
    p.Held? && p.worker < |workers| && (workers[p.worker].Failing? || workers[p.worker].Raised?)
  }

  /** The log says of each node what its place says. */
  ghost predicate Recorded(s: Walk) {
    && (forall n :: n in s.ready.started <==> BegunIn(s.log, n))
    && Agrees(s.place, s.workers, s.log)
  }

  ghost predicate Agrees(place: map<Node, Place>, workers: seq<Worker>, log: seq<Event>) {
    && (forall n :: Ended(n) in log <==> n in place && EndedAt(place[n], workers))
    && (forall n :: Failed(n) in log <==> n in place && FailedAt(place[n], workers))
  }

  ghost predicate Orderly(g: Graph, log: seq<Event>) {
    StartsOnce(log) && StartsAfterDependencies(g, log) && EndsAfterStart(log)
  }

  ghost predicate Placed(g: Graph, s: Walk) {
    Located(g, s) && WaitsForDependencies(g, s) && StartedAreBegun(s)
  }

  // ----- the log grows -----

  lemma LogGains(log: seq<Event>, e: Event)
    ensures forall n :: BegunIn(log + [e], n) <==> BegunIn(log, n) || (e.Began? && e.node == n)
    ensures forall x :: x in log + [e] <==> x in log || x == e
  {
    forall n ensures BegunIn(log + [e], n) <==> BegunIn(log, n) || (e.Began? && e.node == n) {
      if BegunIn(log, n) {
        var i :| 0 <= i < |log| && log[i].Began? && log[i].node == n;
        assert (log + [e])[i] == log[i];
      }
      if e.Began? && e.node == n {
        assert (log + [e])[|log|] == e;
      }
    }
  }

  lemma OrderlyGains(g: Graph, log: seq<Event>, e: Event)
    requires Orderly(g, log)
    requires e.Began? ==> !BegunIn(log, e.node) && forall d :: Edge(g, e.node, d) ==> Ended(d) in log
    requires e.Ended? ==> BegunIn(log, e.node)
    ensures Orderly(g, log + [e])
  {
    var longer := log + [e];
    assert forall i :: 0 <= i <= |log| ==> longer[..i] == log[..i];
    assert log[..|log|] == log;
  }

  /** A worker may start what it holds: the node was released and is new. */
  lemma MayStart(g: Graph, s: Walk, i: nat)
    requires Placed(g, s) && Recorded(s) && Enabled(g, s, WorkerStart(i))
    ensures !BegunIn(s.log, s.workers[i].node)
    ensures forall d :: Edge(g, s.workers[i].node, d) ==> Ended(d) in s.log
  {
    var n := s.workers[i].node;
    assert s.place[n] == Held(i) && !BegunAt(s.place[n], s.workers);
    assert Released(g, s.ready.finished, n);
  }

  lemma {:induction false} StepKeepsOrder(g: Graph, s: Walk, step: Step)
    requires Placed(g, s) && Recorded(s) && Enabled(g, s, step)
    requires Orderly(g, s.log)
    ensures Orderly(g, Apply(g, s, step).log)
  {
    match step
    case WorkerStart(i) =>
      MayStart(g, s, i);
      OrderlyGains(g, s.log, Began(i, s.workers[i].node, s.shutdown));
    case WorkerReturn(i) =>
      var n := s.workers[i].node;
      assert BegunAt(s.place[n], s.workers);
      OrderlyGains(g, s.log, Ended(n));
    case WorkerFail(i) => OrderlyGains(g, s.log, Failed(s.workers[i].node));
    case _ =>
  }

  // ----- the log agrees with the places -----

  lemma AgreesOnMove(place: map<Node, Place>, place': map<Node, Place>, workers: seq<Worker>, log: seq<Event>)
    requires Agrees(place, workers, log) && place'.Keys == place.Keys
    requires forall n :: n in place ==>
      && EndedAt(place'[n], workers) == EndedAt(place[n], workers)
      && FailedAt(place'[n], workers) == FailedAt(place[n], workers)
    ensures Agrees(place', workers, log)
  {
  }

  /** The worker's new state counts like its old one, or its place is recorded anew. */
  lemma AgreesOnWorker(
    place: map<Node, Place>, workers: seq<Worker>, i: nat, w: Worker, log: seq<Event>, log': seq<Event>)
    requires HeldByWorkers(place, workers) && Agrees(place, workers, log) && i < |workers|
    requires Busy(w) == Busy(workers[i]) && (Busy(w) ==> w.node == workers[i].node)
    requires forall n :: Ended(n) in log' <==> Ended(n) in log || (w.Returned? && n == w.node)
    requires forall n :: Failed(n) in log' <==> Failed(n) in log || ((w.Failing? || w.Raised?) && n == w.node)
    requires !workers[i].Returned? && (workers[i].Failing? ==> w.Raised?)
    requires !workers[i].Raised?
    ensures Agrees(place, workers[i := w], log')
  {
    var workers' := workers[i := w];
    assert forall p: Place :: EndedAt(p, workers') <==> EndedAt(p, workers) || (p == Held(i) && w.Returned?);
    assert forall p: Place :: FailedAt(p, workers') <==>
      FailedAt(p, workers) || (p == Held(i) && (w.Failing? || w.Raised?));
    if Busy(w) { assert place[w.node] == Held(i); }
  }

  lemma AgreesOnTake(place: map<Node, Place>, workers: seq<Worker>, i: nat, n: Node, log: seq<Event>)
    requires HeldByWorkers(place, workers) && Agrees(place, workers, log)
    requires i < |workers| && workers[i] == Armed && n in place && place[n] == Tasked
    ensures Agrees(place[n := Held(i)], workers[i := Holding(n)], log)
  {
    var workers' := workers[i := Holding(n)];
    assert forall p: Place :: EndedAt(p, workers') == EndedAt(p, workers);
    assert forall p: Place :: FailedAt(p, workers') == FailedAt(p, workers);
  }

  lemma AgreesOnPut(place: map<Node, Place>, workers: seq<Worker>, i: nat, log: seq<Event>)
    requires HeldByWorkers(place, workers) && Agrees(place, workers, log)
    requires i < |workers| && workers[i].Returned?
    ensures Agrees(place[workers[i].node := Finishing], workers[i := Idle], log)
  {
    var workers' := workers[i := Idle];
    assert forall p: Place :: p != Held(i) ==> EndedAt(p, workers') == EndedAt(p, workers);
    assert forall p: Place :: FailedAt(p, workers') == FailedAt(p, workers);
  }

  lemma PushKeepsAgreement(g: Graph, s: Walk, now: real)
    requires Located(g, s) && Agrees(s.place, s.workers, s.log)
    ensures Agrees(AfterPush(s, now).place, s.workers, s.log)
  {
    if s.ready.queue != [] {
      assert s.ready.queue[|s.ready.queue| - 1] in s.ready.queue;
      AgreesOnMove(s.place, AfterPush(s, now).place, s.workers, s.log);
    }
  }

  lemma PullKeepsAgreement(g: Graph, s: Walk, released: seq<Node>)
    requires Located(g, s) && WaitsForDependencies(g, s) && Agrees(s.place, s.workers, s.log)
    requires Enabled(g, s, Pull(released))
    ensures Agrees(AfterPull(s, released).place, s.workers, s.log)
  {
    if s.done != [] {
      ReleasedWereWaiting(g, s, released);
      AgreesOnMove(s.place, AfterPull(s, released).place, s.workers, s.log);
    }
  }

  /** Steps in which a worker calls `f` or comes back from it. */
  lemma CallsKeepAgreement(g: Graph, s: Walk, step: Step)
    requires Located(g, s) && Agrees(s.place, s.workers, s.log) && Enabled(g, s, step)
    requires step.WorkerStart? || step.WorkerReturn? || step.WorkerFail? || step.WorkerAbort?
    ensures var t := Apply(g, s, step); Agrees(s.place, t.workers, t.log)
  {
    var i := step.worker;
    var n := s.workers[i].node;
    match step
    case WorkerStart(_) =>
      LogGains(s.log, Began(i, n, s.shutdown));
      AgreesOnWorker(s.place, s.workers, i, Running(n), s.log, s.log + [Began(i, n, s.shutdown)]);
    case WorkerReturn(_) =>
      LogGains(s.log, Ended(n));
      AgreesOnWorker(s.place, s.workers, i, Returned(n), s.log, s.log + [Ended(n)]);
    case WorkerFail(_) =>
      LogGains(s.log, Failed(n));
      AgreesOnWorker(s.place, s.workers, i, Failing(n), s.log, s.log + [Failed(n)]);
    case WorkerAbort(_) =>
      assert s.place[n] == Held(i) && FailedAt(s.place[n], s.workers);
      AgreesOnWorker(s.place, s.workers, i, Raised(n), s.log, s.log);
  }

  lemma {:induction false} StepKeepsAgreement(g: Graph, s: Walk, step: Step)
    requires Placed(g, s) && Agrees(s.place, s.workers, s.log) && Enabled(g, s, step)
    ensures var t := Apply(g, s, step); Agrees(t.place, t.workers, t.log)
  {
    match step
    case Push(now) => PushKeepsAgreement(g, s, now);
    case Pull(released) => PullKeepsAgreement(g, s, released);
    case WorkerTest(i) =>
      AgreesOnWorker(s.place, s.workers, i, if s.shutdown then Exited else Armed, s.log, s.log);
    case WorkerTake(i) =>
      if s.tasks == [] {
        AgreesOnWorker(s.place, s.workers, i, Idle, s.log, s.log);
      } else {
        assert s.tasks[0] in s.tasks;
        AgreesOnTake(s.place, s.workers, i, s.tasks[0], s.log);
      }
    case WorkerPut(i) => AgreesOnPut(s.place, s.workers, i, s.log);
    case TestShutdown =>
    case TestDone =>
    case CheckSanity =>
    case Join =>
    case _ => CallsKeepAgreement(g, s, step);
  }

  lemma StepKeepsBegunIn(g: Graph, s: Walk, step: Step)
    requires Enabled(g, s, step) && forall n :: n in s.ready.started <==> BegunIn(s.log, n)
    ensures var t := Apply(g, s, step); forall n :: n in t.ready.started <==> BegunIn(t.log, n)
  {
    match step
    case WorkerStart(i) => LogGains(s.log, Began(i, s.workers[i].node, s.shutdown));
    case WorkerReturn(i) => LogGains(s.log, Ended(s.workers[i].node));
    case WorkerFail(i) => LogGains(s.log, Failed(s.workers[i].node));
    case _ =>
  }

  // ----- results about every log -----

  /** A start is preceded by the end of every transitive dependency. */
  lemma {:induction false} StartsAfterAllBelow(g: Graph, log: seq<Event>, i: nat, p: seq<Node>)
    requires Orderly(g, log) && i < |log| && log[i].Began?
    requires |p| >= 2 && Path(g, p) && p[0] == log[i].node
    ensures Ended(p[|p| - 1]) in log[..i]
    decreases |p|
  {
    assert Edge(g, p[0], p[1]);
    if |p| > 2 {
      var k :| 0 <= k < i && log[k] == Ended(p[1]);
      assert BegunIn(log[..k], log[k].node);
      var j :| 0 <= j < k && log[j].Began? && log[j].node == p[1];
      PathTail(g, p);
      StartsAfterAllBelow(g, log, j, p[1..]);
      assert log[..j] <= log[..i];
    }
  }

  /** The nodes `f` was called on, in order. */
  function StartOrder(log: seq<Event>): seq<Node> {
    if log == [] then []
    else
      var last := log[|log| - 1];
      StartOrder(log[..|log| - 1]) + if last.Began? then [last.node] else []
  }

  lemma {:induction false} StartOrderLists(log: seq<Event>)
    ensures forall n :: n in StartOrder(log) <==> BegunIn(log, n)
    decreases |log|
  {
    if log != [] {
      var front, last := log[..|log| - 1], log[|log| - 1];
      StartOrderLists(front);
      assert log == front + [last];
      LogGains(front, last);
    }
  }

  lemma OrderlyPrefix(g: Graph, log: seq<Event>, k: nat)
    requires Orderly(g, log) && k <= |log|
    ensures Orderly(g, log[..k])
  {
    assert forall i :: 0 <= i <= k ==> log[..k][..i] == log[..i];
  }

  /** The start order is a linear extension of the dependency graph. */
  lemma {:induction false} StartOrderExtendsGraph(g: Graph, log: seq<Event>)
    requires Orderly(g, log)
    ensures NoDuplicates(StartOrder(log)) && DependenciesFirst(g, StartOrder(log))
    decreases |log|
  {
    if log != [] {
      var k := |log| - 1;
      var front, last := log[..k], log[k];
      OrderlyPrefix(g, log, k);
      StartOrderExtendsGraph(g, front);
      if last.Began? {
        StartOrderLists(front);
        assert !BegunIn(front, last.node);
        forall d | Edge(g, log[k].node, d) ensures d in StartOrder(front) {
          assert Ended(d) in front;
          var j :| 0 <= j < |front| && front[j] == Ended(d);
          assert BegunIn(front[..j], front[j].node);
        }
        AppendKeepsDependenciesFirst(g, StartOrder(front), last.node);
      } else {
        assert StartOrder(log) == StartOrder(front);
      }
    }
  }

  lemma AppendKeepsDependenciesFirst(g: Graph, s: seq<Node>, n: Node)
    requires NoDuplicates(s) && DependenciesFirst(g, s) && n !in s
    requires forall d :: Edge(g, n, d) ==> d in s
    ensures NoDuplicates(s + [n]) && DependenciesFirst(g, s + [n])
  {
    assert forall i :: 0 <= i <= |s| ==> (s + [n])[..i] == s[..i];
  }

  /** Failure containment: nothing that depends on a failed node is ever started. */
  lemma NothingAboveAFailureStarts(g: Graph, s: Walk, failed: Node, above: Node)
    requires Placed(g, s) && Recorded(s) && Orderly(g, s.log)
    requires Failed(failed) in s.log && DependsOn(g, above, failed)
    ensures !BegunIn(s.log, above)
  {
    if BegunIn(s.log, above) {
      var i :| 0 <= i < |s.log| && s.log[i].Began? && s.log[i].node == above;
      var p :| PathBetween(g, p, above, failed);
      StartsAfterAllBelow(g, s.log, i, p);
    }
  }
}
