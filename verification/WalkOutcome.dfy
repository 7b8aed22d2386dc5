/** From every reachable state of the walk some schedule reaches an outcome, without a further
    failure: the walk cannot deadlock. */
module WalkOutcome {
  import opened Graphs
  import opened ReadySets
  import opened RateLimiters
  import opened Walks
  import opened WalkHistory
  import opened WalkControl
  import opened WalkProgress

  predicate HasLeft(w: Worker) {
    w.Exited? || w.Raised?
  }

  /** The main thread has its outcome, and the thread pool has seen every worker leave. */
  ghost predicate Over(s: Walk) {
    && (s.main.Completed? || s.main.Reraised?)
    && forall i :: 0 <= i < |s.workers| ==> HasLeft(s.workers[i])
  }

  /** The requests of a run read a clock that does not go back behind `from`. */
  predicate ClockRuns(steps: seq<Step>, from: real)
    decreases |steps|
  {
    steps == [] ||
    if steps[0].Push? then from <= steps[0].now && ClockRuns(steps[1..], steps[0].now)
    else ClockRuns(steps[1..], from)
  }

  // ----- how many polling steps separate a state from its next move -----

  function Polls(w: Worker): nat {
    if w.Armed? then 2 else if w.Idle? then 1 else 0
  }

  function AllPolls(workers: seq<Worker>): nat {
    if workers == [] then 0 else AllPolls(workers[..|workers| - 1]) + Polls(workers[|workers| - 1])
  }

  lemma {:induction false} PollsUpdate(workers: seq<Worker>, i: nat, w: Worker)
    requires i < |workers|
    ensures AllPolls(workers[i := w]) == AllPolls(workers) - Polls(workers[i]) + Polls(w)
    decreases |workers|
  {
    var k := |workers| - 1;
    if i < k {
      PollsUpdate(workers[..k], i, w);
      assert workers[i := w][..k] == workers[..k][i := w];
    } else {
      assert workers[i := w][..k] == workers[..k];
    }
  }

  /** The main thread on its way out, once `shutdown` is set. */
  function ToLeave(main: Main, numWorkers: nat): int {
    match main
    case Joining(next) => numWorkers + 1 - next
    case SanityCheck => numWorkers + 2
    case LoopHead => numWorkers + 3
    case Pulling => numWorkers + 4
    case Pushing => numWorkers + 5
    case DoneCheck => numWorkers + 6
    case _ => 0
  }

  /** The main thread on its way to the part of its loop that has something to do. */
  function ToWork(s: Walk): nat {
    if s.ready.queue != [] then
      match s.main { case Pushing => 0 case DoneCheck => 1 case LoopHead => 2 case _ => 3 }
    else if s.tasks != [] then
      if |s.workers| > 0 && s.workers[0].Idle? then 1 else 0
    else if s.done != [] then
      match s.main { case Pulling => 0 case Pushing => 1 case DoneCheck => 2 case _ => 3 }
    else
      match s.main { case DoneCheck => 0 case LoopHead => 1 case Pulling => 2 case _ => 3 }
  }

  function Distance(s: Walk): int {
    if s.shutdown then ToLeave(s.main, |s.workers|) + AllPolls(s.workers)
    else 3 * |s.workers| + 10 + ToWork(s)
  }

  lemma {:induction false} PollsBound(workers: seq<Worker>)
    ensures AllPolls(workers) <= 2 * |workers|
    decreases |workers|
  {
    if workers != [] { PollsBound(workers[..|workers| - 1]); }
  }

  ghost predicate Closer(g: Graph, s: Walk, step: Step) {
    && Enabled(g, s, step) && !step.WorkerFail?
    && (MovesNode(s, step) || Distance(Apply(g, s, step)) < Distance(s))
  }

  lemma ReleasedExist(g: Graph, finished: set<Node>, n: Node) returns (released: seq<Node>)
    ensures Unblocks(g, finished, n, released)
  {
    var todo := set m | m in g && Released(g, finished + {n}, m) && !Released(g, finished, m);
    released := InSomeOrder(todo);
  }

  lemma {:induction false} InSomeOrder(nodes: set<Node>) returns (s: seq<Node>)
    ensures NoDuplicates(s) && forall n :: n in s <==> n in nodes
    decreases nodes
  {
    if nodes == {} {
      s := [];
    } else {
      var n :| n in nodes;
      s := InSomeOrder(nodes - {n});
      s := s + [n];
    }
  }

  lemma PullIsPossible(g: Graph, s: Walk) returns (step: Step)
    requires s.main == Pulling
    ensures step.Pull? && Enabled(g, s, step)
  {
    if s.done == [] {
      step := Pull([]);
    } else {
      var released := ReleasedExist(g, s.ready.finished, s.done[0]);
      step := Pull(released);
    }
  }

  /** A worker with a node in its hands can move it. */
  lemma BusyWorkerMoves(g: Graph, s: Walk, i: nat) returns (step: Step)
    requires i < |s.workers| && Busy(s.workers[i]) && !s.workers[i].Raised?
    ensures Closer(g, s, step) && !step.Push?
    ensures step == WorkerStart(i) || step == WorkerReturn(i) || step == WorkerPut(i) || step == WorkerAbort(i)
  {
    match s.workers[i]
    case Holding(_) => step := WorkerStart(i);
    case Running(_) => step := WorkerReturn(i);
    case Returned(_) => step := WorkerPut(i);
    case Failing(_) => step := WorkerAbort(i);
  }

  /** With `shutdown` set every worker finds its way out. */
  lemma WorkerLeaves(g: Graph, s: Walk, i: nat) returns (step: Step)
    requires s.shutdown && i < |s.workers| && !HasLeft(s.workers[i])
    ensures Closer(g, s, step) && !step.Push?
  {
    match s.workers[i]
    case Idle =>
      step := WorkerTest(i);
      PollsUpdate(s.workers, i, Exited);
    case Armed =>
      step := WorkerTake(i);
      PollsUpdate(s.workers, i, Idle);
    case _ => step := BusyWorkerMoves(g, s, i);
  }

  /** With `shutdown` set the walk winds down. */
  lemma WindingDown(g: Graph, s: Walk, notBefore: real) returns (step: Step)
    requires Controlled(g, s) && !Over(s) && s.shutdown
    requires s.main == SanityCheck ==> Sane(g, s.ready)
    ensures Closer(g, s, step) && (step.Push? ==> step.now == notBefore)
  {
    match s.main
    case Pulling => step := PullIsPossible(g, s);
    case Pushing => step := Push(notBefore);
    case LoopHead => step := TestShutdown;
    case DoneCheck => step := TestDone;
    case SanityCheck => step := CheckSanity;
    case Joining(next) =>
      if next < |s.workers| && !HasLeft(s.workers[next]) {
        step := WorkerLeaves(g, s, next);
      } else {
        step := Join;
      }
    case Reraised(_) =>
      var i :| 0 <= i < |s.workers| && !HasLeft(s.workers[i]);
      step := WorkerLeaves(g, s, i);
    case _ => step := TestShutdown;
  }

  /** The main thread is inside its loop and the workers are inside theirs. */
  ghost predicate InTheLoops(s: Walk) {
    && s.workers != [] && !s.shutdown && s.limiter.tokensPerSecond > 0.0
    && (s.main == LoopHead || s.main == DoneCheck || s.main == Pushing || s.main == Pulling)
    && forall i :: 0 <= i < |s.workers| ==> !s.workers[i].Exited? && !s.workers[i].Raised?
  }

  /** Before that, some thread has something to do. */
  lemma CarryingOn(g: Graph, s: Walk, notBefore: real) returns (step: Step)
    requires Accepted(g) && Placed(g, s) && InTheLoops(s)
    ensures Closer(g, s, step) && (step.Push? ==> step.now >= notBefore)
  {
    if i :| 0 <= i < |s.workers| && Busy(s.workers[i]) {
      step := BusyWorkerMoves(g, s, i);
    } else if s.ready.queue == [] && s.tasks != [] {
      step := FirstWorkerPolls(g, s);
    } else {
      if s.ready.queue == [] && s.done == [] {
        NothingOnItsWayIsDone(g, s);
      }
      step := MainCarriesOn(g, s, notBefore);
    }
  }

  lemma FirstWorkerPolls(g: Graph, s: Walk) returns (step: Step)
    requires InTheLoops(s) && s.ready.queue == [] && s.tasks != [] && !Busy(s.workers[0])
    ensures Closer(g, s, step) && !step.Push?
  {
    step := if s.workers[0] == Idle then WorkerTest(0) else WorkerTake(0);
  }

  lemma MainCarriesOn(g: Graph, s: Walk, notBefore: real) returns (step: Step)
    requires InTheLoops(s)
    requires s.ready.queue == [] ==> s.tasks == []
    requires s.ready.queue == [] && s.done == [] ==> IsDone(g, s.ready)
    ensures Closer(g, s, step) && (step.Push? ==> step.now >= notBefore)
  {
    match s.main
    case LoopHead => step := TestShutdown;
    case DoneCheck =>
      step := TestDone;
      PollsBound(s.workers);
    case Pushing =>
      var now := GrantsEventually(s.limiter, notBefore);
      step := Push(now);
    case Pulling => step := PullIsPossible(g, s);
  }

  lemma {:induction false} SomeStepIsCloser(g: Graph, s: Walk, notBefore: real) returns (step: Step)
    requires Accepted(g) && Inv(g, s) && !Over(s)
    ensures Closer(g, s, step) && (step.Push? ==> step.now >= notBefore)
  {
    if s.shutdown {
      if s.main == SanityCheck { DoneIsSane(g, s); }
      step := WindingDown(g, s, notBefore);
    } else {
      step := CarryingOn(g, s, notBefore);
    }
  }

  lemma CloserDecreases(g: Graph, s: Walk, step: Step)
    requires Placed(g, s) && Closer(g, s, step)
    ensures
      var t := Apply(g, s, step);
      Measure(t) < Measure(s) || (Measure(t) == Measure(s) && Distance(t) < Distance(s))
  {
    if MovesNode(s, step) {
      MovingStepsDrop(g, s, step);
    } else {
      PollingStepsStay(g, s, step);
    }
  }

  lemma NoNewFailure(g: Graph, s: Walk, step: Step)
    requires Enabled(g, s, step) && !step.WorkerFail?
    ensures forall n :: Failed(n) in Apply(g, s, step).log <==> Failed(n) in s.log
  {
  }

  lemma DistanceBelow(g: Graph, s: Walk)
    requires Controlled(g, s)
    ensures Distance(s) >= 0
  {
  }

  /** Main result: whatever has happened, some continuation ends the walk without any failure
      beyond those that have already happened, on a clock that runs on from `notBefore`. */
  lemma {:induction false} CanAlwaysEnd(g: Graph, s: Walk, notBefore: real) returns (steps: seq<Step>, t: Walk)
    requires Accepted(g) && Inv(g, s)
    ensures Leads(g, s, steps, t) && Over(t) && ClockRuns(steps, notBefore)
    ensures forall n :: Failed(n) in t.log <==> Failed(n) in s.log
    decreases Measure(s), Distance(s)
  {
    if Over(s) {
      steps, t := [], s;
    } else {
      var step := SomeStepIsCloser(g, s, notBefore);
      var next := Apply(g, s, step);
      StepKeepsInv(g, s, step);
      NoNewFailure(g, s, step);
      DistanceBelow(g, s);
      DistanceBelow(g, next);
      CloserDecreases(g, s, step);
      var rest;
      rest, t := CanAlwaysEnd(g, next, if step.Push? then step.now else notBefore);
      steps := [step] + rest;
      assert steps[1..] == rest;
    }
  }
}
