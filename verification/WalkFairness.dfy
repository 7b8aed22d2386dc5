/** Every fair schedule ends the walk. A schedule is infinite: at each instant one thread takes a step
    or nobody does. It is fair if no thread is able to take a step for ever without taking one, and
    its clock passes every time. */
module WalkFairness {
  import opened Graphs
  import opened ReadySets
  import opened RateLimiters
  import Runs
  import opened Walks
  import opened WalkControl
  import opened WalkProgress
  import opened WalkOutcome

  datatype Thread = MainThread | WorkerThread(i: nat)

  function ThreadOf(step: Step): Thread {
    match step
    case WorkerTest(i) => WorkerThread(i)
    case WorkerTake(i) => WorkerThread(i)
    case WorkerStart(i) => WorkerThread(i)
    case WorkerReturn(i) => WorkerThread(i)
    case WorkerFail(i) => WorkerThread(i)
    case WorkerPut(i) => WorkerThread(i)
    case WorkerAbort(i) => WorkerThread(i)
    case _ => MainThread
  }

  ghost predicate CanStep(g: Graph, s: Walk, th: Thread) {
    exists step :: Enabled(g, s, step) && ThreadOf(step) == th
  }

  predicate StepBy(choice: Option<Step>, th: Thread) {
    choice.Some? && ThreadOf(choice.value) == th
  }

  ghost predicate Continues(g: Graph, s: Walk, choice: Option<Step>, t: Walk) {
    match choice
    case None => t == s
    case Some(step) => Enabled(g, s, step) && t == Apply(g, s, step)
  }

  ghost predicate IsCourse(g: Graph, states: nat -> Walk, steps: nat -> Option<Step>) {
    forall i: nat :: Continues(g, states(i), steps(i), states(i + 1))
  }

  ghost predicate Attended(g: Graph, states: nat -> Walk, steps: nat -> Option<Step>, th: Thread, j: nat) {
    !CanStep(g, states(j), th) || StepBy(steps(j), th)
  }

  ghost predicate AttendedFrom(g: Graph, states: nat -> Walk, steps: nat -> Option<Step>, th: Thread, i: nat) {
    exists j: nat :: j >= i && Attended(g, states, steps, th, j)
  }

  /** No thread waits for ever while it could go on; in particular every call of `f` ends. */
  ghost predicate Fair(g: Graph, states: nat -> Walk, steps: nat -> Option<Step>) {
    forall th, i: nat :: AttendedFrom(g, states, steps, th, i)
  }

  predicate ReadsFrom(choice: Option<Step>, time: real) {
    choice.Some? && choice.value.Push? ==> choice.value.now >= time
  }

  ghost predicate LateFrom(steps: nat -> Option<Step>, i: nat, time: real) {
    forall j: nat :: j >= i ==> ReadsFrom(steps(j), time)
  }

  ghost predicate Passes(steps: nat -> Option<Step>, time: real) {
    exists i: nat :: LateFrom(steps, i, time)
  }

  /** The clock passes every time and stays past it. */
  ghost predicate ClockDiverges(steps: nat -> Option<Step>) {
    forall time: real :: Passes(steps, time)
  }

  // ----- every step comes closer or polls -----

  /** With `shutdown` set, polling brings everybody closer to the exit. */
  lemma PollingLeaves(g: Graph, s: Walk, step: Step)
    requires Controlled(g, s) && s.shutdown && Enabled(g, s, step) && !MovesNode(s, step)
    ensures Apply(g, s, step).shutdown && Distance(Apply(g, s, step)) < Distance(s)
  {
    match step
    case WorkerTest(i) => PollsUpdate(s.workers, i, Exited);
    case WorkerTake(i) => PollsUpdate(s.workers, i, Idle);
    case _ =>
  }

  /** Polling without `shutdown` changes nothing but where the pollers are in their loops. */
  ghost predicate Frozen(s: Walk, t: Walk) {
    && t.ready == s.ready && t.tasks == s.tasks && t.done == s.done && t.limiter == s.limiter
    && |t.workers| == |s.workers|
    && forall k :: 0 <= k < |s.workers| ==>
         if Busy(s.workers[k]) then t.workers[k] == s.workers[k] else !Busy(t.workers[k])
  }

  lemma PollingFreezes(g: Graph, s: Walk, step: Step)
    requires Enabled(g, s, step) && !MovesNode(s, step)
    ensures Frozen(s, Apply(g, s, step))
  {
  }

  ghost function Level(g: Graph, s: Walk): nat
    requires Controlled(g, s)
  {
    DistanceBelow(g, s);
    if s.shutdown then Distance(s) else 3 * |s.workers| + 10
  }

  ghost predicate Better(g: Graph, t: Walk, s: Walk)
    requires Controlled(g, s) && Controlled(g, t)
  {
    Measure(t) < Measure(s) || (Measure(t) == Measure(s) && Level(g, t) < Level(g, s))
  }

  lemma ShutdownIsBetter(g: Graph, s: Walk, t: Walk)
    requires Controlled(g, s) && Controlled(g, t) && !s.shutdown && t.shutdown && |t.workers| == |s.workers|
    ensures Level(g, t) < Level(g, s)
  {
    PollsBound(t.workers);
  }

  /** A step that does not come closer is a poll before `shutdown`. */
  lemma {:induction false} StepIsBetterOrPolls(g: Graph, s: Walk, step: Step)
    requires Complete(g) && Inv(g, s) && Enabled(g, s, step)
    ensures Inv(g, Apply(g, s, step))
    ensures
      var t := Apply(g, s, step);
      Better(g, t, s) || (!MovesNode(s, step) && !s.shutdown && !t.shutdown && Frozen(s, t))
  {
    StepKeepsInv(g, s, step);
    var t := Apply(g, s, step);
    if MovesNode(s, step) {
      MovingStepsDrop(g, s, step);
    } else {
      PollingStepsStay(g, s, step);
      PollingFreezes(g, s, step);
      if s.shutdown {
        PollingLeaves(g, s, step);
      } else if t.shutdown {
        ShutdownIsBetter(g, s, t);
      }
    }
  }

  // ----- a schedule that never comes closer -----

  /** From `i` on nothing gets better. */
  ghost predicate Stuck(g: Graph, states: nat -> Walk, steps: nat -> Option<Step>, i: nat) {
    && Complete(g) && IsCourse(g, states, steps) && Inv(g, states(i)) && !Over(states(i))
    && forall j: nat :: j >= i && Inv(g, states(j)) ==> !Better(g, states(j), states(i))
  }

  /** Then nothing moves any more: after `shutdown` not a single step is taken, and before it threads
      only poll. */
  ghost predicate Still(g: Graph, s: Walk, t: Walk, choice: Option<Step>) {
    && Inv(g, t)
    && if s.shutdown then t == s && choice.None?
       else
         && !t.shutdown && Frozen(s, t) && Measure(t) == Measure(s)
         && (choice.Some? ==> Enabled(g, t, choice.value) && !MovesNode(t, choice.value))
  }

  lemma StillNow(g: Graph, states: nat -> Walk, steps: nat -> Option<Step>, i: nat, j: nat)
    requires Stuck(g, states, steps, i) && j >= i && Inv(g, states(j))
    requires if states(i).shutdown then states(j) == states(i)
             else !states(j).shutdown && Frozen(states(i), states(j)) && Measure(states(j)) == Measure(states(i))
    ensures Still(g, states(i), states(j), steps(j))
    ensures steps(j).Some? ==> !states(j + 1).shutdown && Frozen(states(j), states(j + 1)) && Inv(g, states(j + 1))
    ensures steps(j).Some? ==> Measure(states(j + 1)) == Measure(states(j))
  {
    assert Continues(g, states(j), steps(j), states(j + 1));
    if steps(j).Some? {
      StepIsBetterOrPolls(g, states(j), steps(j).value);
      assert !Better(g, states(j + 1), states(i));
      PollingStepsStay(g, states(j), steps(j).value);
    }
  }

  lemma FrozenOn(s: Walk, t: Walk, u: Walk)
    ensures Frozen(t, t)
    ensures Frozen(s, t) && Frozen(t, u) ==> Frozen(s, u)
  {
  }

  lemma {:induction false} StaysStill(g: Graph, states: nat -> Walk, steps: nat -> Option<Step>, i: nat, j: nat)
    requires Stuck(g, states, steps, i) && j >= i
    ensures Still(g, states(i), states(j), steps(j))
    decreases j
  {
    if j > i {
      var k: nat := j - 1;
      StaysStill(g, states, steps, i, k);
      assert Continues(g, states(k), steps(k), states(k + 1));
      StillNow(g, states, steps, i, k);
      FrozenOn(states(i), states(k), states(k + 1));
    }
    StillNow(g, states, steps, i, j);
  }

  /** A thread that is able to go on at all times takes a step. */
  lemma Gets(g: Graph, states: nat -> Walk, steps: nat -> Option<Step>, th: Thread, i: nat) returns (j: nat)
    requires Fair(g, states, steps) && forall j: nat :: j >= i ==> CanStep(g, states(j), th)
    ensures j >= i && StepBy(steps(j), th)
  {
    assert AttendedFrom(g, states, steps, th, i);
    j :| j >= i && Attended(g, states, steps, th, j);
  }

  /** After `shutdown` somebody could go on and would be let. */
  lemma {:induction false} NotStuckAfterShutdown(g: Graph, states: nat -> Walk, steps: nat -> Option<Step>, i: nat)
    requires Accepted(g) && Fair(g, states, steps) && states(i).shutdown
    ensures !Stuck(g, states, steps, i)
  {
    if Stuck(g, states, steps, i) {
      var step := SomeStepIsCloser(g, states(i), 0.0);
      forall j: nat | j >= i ensures CanStep(g, states(j), ThreadOf(step)) {
        StaysStill(g, states, steps, i, j);
      }
      var j := Gets(g, states, steps, ThreadOf(step), i);
      StaysStill(g, states, steps, i, j);
    }
  }

  lemma BusyWorkerOnlyMoves(g: Graph, s: Walk, step: Step, k: nat)
    requires k < |s.workers| && Busy(s.workers[k]) && Enabled(g, s, step) && ThreadOf(step) == WorkerThread(k)
    ensures MovesNode(s, step)
  {
  }

  lemma BusyWorkerCanStep(g: Graph, s: Walk, t: Walk, choice: Option<Step>, k: nat)
    requires Still(g, s, t, choice) && !s.shutdown && k < |s.workers| && Busy(s.workers[k])
    ensures k < |t.workers| && Busy(t.workers[k]) && CanStep(g, t, WorkerThread(k))
  {
    var step := BusyWorkerMoves(g, t, k);
    assert ThreadOf(step) == WorkerThread(k);
  }

  /** A worker with a node in its hands would move it. */
  lemma NotStuckWithBusyWorker(g: Graph, states: nat -> Walk, steps: nat -> Option<Step>, i: nat, k: nat)
    requires Accepted(g) && Fair(g, states, steps) && !states(i).shutdown
    requires k < |states(i).workers| && Busy(states(i).workers[k])
    ensures !Stuck(g, states, steps, i)
  {
    if Stuck(g, states, steps, i) {
      forall j: nat | j >= i ensures CanStep(g, states(j), WorkerThread(k)) {
        StaysStill(g, states, steps, i, j);
        BusyWorkerCanStep(g, states(i), states(j), steps(j), k);
      }
      var j := Gets(g, states, steps, WorkerThread(k), i);
      StaysStill(g, states, steps, i, j);
      BusyWorkerCanStep(g, states(i), states(j), steps(j), k);
      BusyWorkerOnlyMoves(g, states(j), steps(j).value, k);
    }
  }

  // ----- an idle worker and a full task queue -----

  ghost predicate NobodyBusy(s: Walk) {
    forall k :: 0 <= k < |s.workers| ==> !Busy(s.workers[k])
  }

  lemma IdleWorkerPolls(g: Graph, s: Walk)
    requires Inv(g, s) && !s.shutdown && !Busy(s.workers[0])
    ensures s.workers[0] == Idle || s.workers[0] == Armed
    ensures CanStep(g, s, WorkerThread(0))
  {
    var step := if s.workers[0] == Idle then WorkerTest(0) else WorkerTake(0);
    assert Enabled(g, s, step) && ThreadOf(step) == WorkerThread(0);
  }

  /** A poll of the first worker, with a task to be had, arms it. */
  lemma PollArms(g: Graph, s: Walk, step: Step)
    requires Inv(g, s) && !s.shutdown && !Busy(s.workers[0]) && s.tasks != []
    requires Enabled(g, s, step) && !MovesNode(s, step)
    ensures ThreadOf(step) == WorkerThread(0) ==> s.workers[0] == Idle && Apply(g, s, step).workers[0] == Armed
    ensures ThreadOf(step) != WorkerThread(0) ==> Apply(g, s, step).workers[0] == s.workers[0]
  {
    IdleWorkerPolls(g, s);
  }

  lemma ArmedForNow(g: Graph, s: Walk, t: Walk, choice: Option<Step>, u: Walk)
    requires Still(g, s, t, choice) && Continues(g, t, choice, u)
    requires !s.shutdown && NobodyBusy(s) && s.tasks != [] && t.workers[0] == Armed
    ensures |u.workers| > 0 && u.workers[0] == Armed
  {
    if choice.Some? { PollArms(g, t, choice.value); }
  }

  lemma {:induction false} StaysArmed(
    g: Graph, states: nat -> Walk, steps: nat -> Option<Step>, i: nat, from: nat, j: nat)
    requires Stuck(g, states, steps, i) && !states(i).shutdown && NobodyBusy(states(i)) && states(i).tasks != []
    requires i <= from <= j && |states(from).workers| > 0 && states(from).workers[0] == Armed
    ensures |states(j).workers| > 0 && states(j).workers[0] == Armed
    decreases j
  {
    if from < j {
      var k: nat := j - 1;
      StaysArmed(g, states, steps, i, from, k);
      StaysStill(g, states, steps, i, k);
      ArmedForNow(g, states(i), states(k), steps(k), states(k + 1));
    }
  }

  lemma FirstWorkerGets(g: Graph, states: nat -> Walk, steps: nat -> Option<Step>, i: nat, from: nat) returns (j: nat)
    requires Stuck(g, states, steps, i) && Fair(g, states, steps) && from >= i
    requires !states(i).shutdown && NobodyBusy(states(i))
    ensures j >= from && StepBy(steps(j), WorkerThread(0))
  {
    forall j: nat | j >= from ensures CanStep(g, states(j), WorkerThread(0)) {
      StaysStill(g, states, steps, i, j);
      IdleWorkerPolls(g, states(j));
    }
    j := Gets(g, states, steps, WorkerThread(0), from);
  }

  /** Two rounds of the first worker take a task. */
  lemma {:induction false} NotStuckWithTask(g: Graph, states: nat -> Walk, steps: nat -> Option<Step>, i: nat)
    requires Accepted(g) && Fair(g, states, steps)
    requires !states(i).shutdown && NobodyBusy(states(i)) && states(i).tasks != []
    ensures !Stuck(g, states, steps, i)
  {
    if Stuck(g, states, steps, i) {
      var j := FirstWorkerGets(g, states, steps, i, i);
      StaysStill(g, states, steps, i, j);
      PollArms(g, states(j), steps(j).value);
      assert Continues(g, states(j), steps(j), states(j + 1));
      var k := FirstWorkerGets(g, states, steps, i, j + 1);
      StaysArmed(g, states, steps, i, j + 1, k);
      StaysStill(g, states, steps, i, k);
      PollArms(g, states(k), steps(k).value);
    }
  }

  // ----- everybody idle: the main thread -----

  /** There is something for the main thread to do. */
  ghost predicate MainHasWork(g: Graph, s: Walk) {
    && !s.shutdown && NobodyBusy(s)
    && (s.ready.queue == [] ==> s.tasks == [])
    && (s.ready.queue == [] && s.done == [] ==> IsDone(g, s.ready))
    && (s.main == LoopHead || s.main == DoneCheck || s.main == Pushing || s.main == Pulling)
  }

  lemma MainCanStep(g: Graph, s: Walk)
    requires MainHasWork(g, s)
    ensures CanStep(g, s, MainThread)
  {
    match s.main
    case LoopHead => assert Enabled(g, s, TestShutdown) && ThreadOf(TestShutdown) == MainThread;
    case DoneCheck => assert Enabled(g, s, TestDone) && ThreadOf(TestDone) == MainThread;
    case Pushing => assert Enabled(g, s, Push(0.0)) && ThreadOf(Push(0.0)) == MainThread;
    case Pulling =>
      var step := PullIsPossible(g, s);
      assert ThreadOf(step) == MainThread;
  }

  /** Going round its loop the main thread comes closer to that work, and once there does it. */
  lemma MainNears(g: Graph, s: Walk, step: Step)
    requires MainHasWork(g, s) && Enabled(g, s, step) && ThreadOf(step) == MainThread
    requires step.Push? ==> s.ready.queue != [] ==> s.limiter.Grants(step.now)
    requires !MovesNode(s, step) && !Apply(g, s, step).shutdown
    ensures ToWork(Apply(g, s, step)) < ToWork(s)
  {
  }

  lemma OthersLeaveMain(g: Graph, s: Walk, step: Step)
    requires MainHasWork(g, s) && Enabled(g, s, step) && ThreadOf(step) != MainThread && !MovesNode(s, step)
    ensures ToWork(Apply(g, s, step)) == ToWork(s)
  {
  }

  lemma {:induction false} StillHasWork(g: Graph, s: Walk, t: Walk, choice: Option<Step>)
    requires Accepted(g) && Inv(g, s) && Still(g, s, t, choice) && !s.shutdown && NobodyBusy(s)
    requires s.ready.queue == [] ==> s.tasks == []
    ensures MainHasWork(g, t)
  {
    if s.ready.queue == [] && s.done == [] {
      NothingOnItsWayIsDone(g, s);
    }
  }

  lemma OneMoreInstant(g: Graph, s: Walk, t: Walk, choice: Option<Step>, u: Walk, next: Option<Step>, time: real)
    requires Still(g, s, t, choice) && Still(g, s, u, next) && Continues(g, t, choice, u)
    requires !s.shutdown && MainHasWork(g, t) && s.limiter.tokensPerSecond > 0.0
    requires s.limiter.Grants(time) && ReadsFrom(choice, time)
    ensures ToWork(u) <= ToWork(t)
    ensures StepBy(choice, MainThread) ==> ToWork(u) < ToWork(t)
  {
    if choice.Some? {
      if ThreadOf(choice.value) == MainThread {
        if choice.value.Push? { GrantsLater(s.limiter, time, choice.value.now); }
        MainNears(g, t, choice.value);
      } else {
        OthersLeaveMain(g, t, choice.value);
      }
    }
  }

  /** Stuck with everybody idle, no task to be had, and a limiter that grants from `time` on. */
  ghost predicate StuckIdle(g: Graph, states: nat -> Walk, steps: nat -> Option<Step>, i: nat, time: real) {
    && Accepted(g) && Stuck(g, states, steps, i) && MainAlone(states(i))
    && states(i).limiter.tokensPerSecond > 0.0 && states(i).limiter.Grants(time)
  }

  ghost predicate MainAlone(s: Walk) {
    !s.shutdown && NobodyBusy(s) && (s.ready.queue == [] ==> s.tasks == [])
  }

  lemma {:induction false} InstantFalls(
    g: Graph, states: nat -> Walk, steps: nat -> Option<Step>, i: nat, k: nat, time: real)
    requires StuckIdle(g, states, steps, i, time) && i <= k && ReadsFrom(steps(k), time)
    ensures ToWork(states(k + 1)) <= ToWork(states(k))
    ensures StepBy(steps(k), MainThread) ==> ToWork(states(k + 1)) < ToWork(states(k))
  {
    StaysStill(g, states, steps, i, k);
    StaysStill(g, states, steps, i, k + 1);
    StillHasWork(g, states(i), states(k), steps(k));
    assert Continues(g, states(k), steps(k), states(k + 1));
    OneMoreInstant(g, states(i), states(k), steps(k), states(k + 1), steps(k + 1), time);
  }

  lemma {:induction false} Falls(f: nat -> nat, from: nat, j: nat)
    requires from <= j && forall k: nat :: from <= k < j ==> f(k + 1) <= f(k)
    ensures f(j) <= f(from)
    decreases j
  {
    if from < j { Falls(f, from, j - 1); }
  }

  lemma {:induction false} ToWorkFalls(
    g: Graph, states: nat -> Walk, steps: nat -> Option<Step>, i: nat, from: nat, j: nat, time: real)
    requires StuckIdle(g, states, steps, i, time) && i <= from <= j && LateFrom(steps, from, time)
    ensures ToWork(states(j)) <= ToWork(states(from))
  {
    var f := (k: nat) => ToWork(states(k));
    forall k: nat | from <= k < j ensures f(k + 1) <= f(k) {
      InstantFalls(g, states, steps, i, k, time);
    }
    Falls(f, from, j);
  }

  lemma {:induction false} MainGets(
    g: Graph, states: nat -> Walk, steps: nat -> Option<Step>, i: nat, from: nat, time: real)
    returns (j: nat)
    requires StuckIdle(g, states, steps, i, time) && Fair(g, states, steps) && from >= i
    ensures j >= from && StepBy(steps(j), MainThread)
  {
    forall j: nat | j >= from ensures CanStep(g, states(j), MainThread) {
      StaysStill(g, states, steps, i, j);
      StillHasWork(g, states(i), states(j), steps(j));
      MainCanStep(g, states(j));
    }
    j := Gets(g, states, steps, MainThread, from);
  }

  /** Each round of the main thread would come closer to its work, without end. */
  lemma {:induction false} NotAlwaysNearer(
    g: Graph, states: nat -> Walk, steps: nat -> Option<Step>, i: nat, from: nat, time: real)
    requires Fair(g, states, steps) && from >= i && LateFrom(steps, from, time)
    ensures !StuckIdle(g, states, steps, i, time)
    decreases ToWork(states(from))
  {
    if StuckIdle(g, states, steps, i, time) {
      var j := MainGets(g, states, steps, i, from, time);
      ToWorkFalls(g, states, steps, i, from, j, time);
      InstantFalls(g, states, steps, i, j, time);
      NotAlwaysNearer(g, states, steps, i, j + 1, time);
    }
  }

  lemma {:induction false} NotStuckIdle(g: Graph, states: nat -> Walk, steps: nat -> Option<Step>, i: nat)
    requires Accepted(g) && Fair(g, states, steps) && ClockDiverges(steps)
    requires MainAlone(states(i)) && states(i).limiter.tokensPerSecond > 0.0
    ensures !Stuck(g, states, steps, i)
  {
    var time := GrantsEventually(states(i).limiter, 0.0);
    assert Passes(steps, time);
    var late: nat :| LateFrom(steps, late, time);
    NotAlwaysNearer(g, states, steps, i, if late >= i then late else i, time);
  }

  // ----- the result -----

  lemma NeverStuck(g: Graph, states: nat -> Walk, steps: nat -> Option<Step>, i: nat)
    requires Accepted(g) && Fair(g, states, steps) && ClockDiverges(steps) && Inv(g, states(i))
    ensures !Stuck(g, states, steps, i)
  {
    var s := states(i);
    if s.shutdown {
      NotStuckAfterShutdown(g, states, steps, i);
    } else if k: nat :| k < |s.workers| && Busy(s.workers[k]) {
      NotStuckWithBusyWorker(g, states, steps, i, k);
    } else if s.tasks != [] {
      NotStuckWithTask(g, states, steps, i);
    } else {
      NotStuckIdle(g, states, steps, i);
    }
  }

  lemma {:induction false} InvAlong(g: Graph, states: nat -> Walk, steps: nat -> Option<Step>, i: nat, j: nat)
    requires Complete(g) && IsCourse(g, states, steps) && i <= j && Inv(g, states(i))
    ensures Inv(g, states(j))
    decreases j
  {
    if i < j {
      var k: nat := j - 1;
      InvAlong(g, states, steps, i, k);
      assert Continues(g, states(k), steps(k), states(k + 1));
      if steps(k).Some? { StepKeepsInv(g, states(k), steps(k).value); }
    }
  }

  lemma {:induction false} EndsFrom(g: Graph, states: nat -> Walk, steps: nat -> Option<Step>, i: nat) returns (k: nat)
    requires Accepted(g) && IsCourse(g, states, steps) && Fair(g, states, steps) && ClockDiverges(steps)
    requires Inv(g, states(i))
    ensures k >= i && Over(states(k))
    decreases Measure(states(i)), Level(g, states(i))
  {
    if Over(states(i)) {
      k := i;
    } else {
      NeverStuck(g, states, steps, i);
      var j: nat :| j >= i && Inv(g, states(j)) && Better(g, states(j), states(i));
      k := EndsFrom(g, states, steps, j);
    }
  }

  /** Termination: every fair schedule of an accepted graph whose clock passes every time ends the
      walk, whatever the order of steps, with any number of failures, and with all workers gone. */
  lemma EveryFairScheduleEnds(g: Graph, states: nat -> Walk, steps: nat -> Option<Step>) returns (k: nat)
    requires Accepted(g) && Init(g, states(0))
    requires IsCourse(g, states, steps) && Fair(g, states, steps) && ClockDiverges(steps)
    ensures Over(states(k))
  {
    InitInv(g, states(0));
    k := EndsFrom(g, states, steps, 0);
  }

  /** A schedule up to instant `i` is a run. */
  lemma {:induction false} CourseIsARun(g: Graph, states: nat -> Walk, steps: nat -> Option<Step>, i: nat)
    returns (run: seq<Step>)
    requires IsCourse(g, states, steps)
    ensures Leads(g, states(0), run, states(i))
    decreases i
  {
    run := [];
    if i > 0 {
      var k: nat := i - 1;
      run := CourseIsARun(g, states, steps, k);
      assert Continues(g, states(k), steps(k), states(k + 1));
      if steps(k).Some? {
        Runs.LeadsOneMore(Moves(g), states(0), run, states(k), steps(k).value, states(i));
        run := run + [steps(k).value];
      }
    }
  }

  predicate Fails(choice: Option<Step>) {
    choice.Some? && choice.value.WorkerFail?
  }

  /** When `f` never raises, no failure is logged. */
  lemma {:induction false} NothingFailed(g: Graph, states: nat -> Walk, steps: nat -> Option<Step>, i: nat)
    requires Init(g, states(0)) && IsCourse(g, states, steps) && forall j: nat :: !Fails(steps(j))
    ensures forall n :: Failed(n) !in states(i).log
    decreases i
  {
    if i > 0 {
      var k: nat := i - 1;
      NothingFailed(g, states, steps, k);
      assert Continues(g, states(k), steps(k), states(k + 1)) && !Fails(steps(k));
    }
  }

  // ----- there are such schedules -----

  ghost function StateAt(g: Graph, s: Walk, steps: seq<Step>, k: nat): Walk
    decreases |steps|
  {
    if k == 0 || steps == [] || !Enabled(g, s, steps[0]) then s
    else StateAt(g, Apply(g, s, steps[0]), steps[1..], k - 1)
  }

  ghost function ChoiceAt(steps: seq<Step>, k: nat): Option<Step> {
    if k < |steps| then Some(steps[k]) else None
  }

  lemma {:induction false} StatesContinue(g: Graph, s: Walk, steps: seq<Step>, t: Walk, k: nat)
    requires Leads(g, s, steps, t)
    ensures Continues(g, StateAt(g, s, steps, k), ChoiceAt(steps, k), StateAt(g, s, steps, k + 1))
    ensures k >= |steps| ==> StateAt(g, s, steps, k) == t
    decreases |steps|
  {
    if steps != [] {
      var next, rest := Apply(g, s, steps[0]), steps[1..];
      if k > 0 {
        StatesContinue(g, next, rest, t, k - 1);
        assert ChoiceAt(steps, k) == ChoiceAt(rest, k - 1);
      }
    }
  }

  lemma NobodyStepsWhenOver(g: Graph, s: Walk, th: Thread)
    requires Over(s)
    ensures !CanStep(g, s, th)
  {
  }

  /** The schedule that takes the given steps and then none. */
  ghost function StatesOf(g: Graph, s: Walk, run: seq<Step>): nat -> Walk {
    (k: nat) => StateAt(g, s, run, k)
  }

  ghost function ChoicesOf(run: seq<Step>): nat -> Option<Step> {
    (k: nat) => ChoiceAt(run, k)
  }

  lemma RunIsCourse(g: Graph, s: Walk, run: seq<Step>, t: Walk)
    requires Leads(g, s, run, t)
    ensures IsCourse(g, StatesOf(g, s, run), ChoicesOf(run))
  {
    forall i: nat ensures Continues(g, StatesOf(g, s, run)(i), ChoicesOf(run)(i), StatesOf(g, s, run)(i + 1)) {
      StatesContinue(g, s, run, t, i);
    }
  }

  lemma RunIsFair(g: Graph, s: Walk, run: seq<Step>, t: Walk)
    requires Leads(g, s, run, t) && Over(t)
    ensures Fair(g, StatesOf(g, s, run), ChoicesOf(run))
  {
    forall th, i: nat ensures AttendedFrom(g, StatesOf(g, s, run), ChoicesOf(run), th, i) {
      var j: nat := if i >= |run| then i else |run|;
      StatesContinue(g, s, run, t, j);
      NobodyStepsWhenOver(g, t, th);
      assert Attended(g, StatesOf(g, s, run), ChoicesOf(run), th, j);
    }
  }

  /** The assumptions can be met: some schedule from every initial state is fair. */
  lemma SomeScheduleIsFair(g: Graph, s: Walk) returns (states: nat -> Walk, steps: nat -> Option<Step>)
    requires Accepted(g) && Init(g, s)
    ensures states(0) == s && IsCourse(g, states, steps) && Fair(g, states, steps) && ClockDiverges(steps)
  {
    InitInv(g, s);
    var run, t := CanAlwaysEnd(g, s, 0.0);
    states, steps := StatesOf(g, s, run), ChoicesOf(run);
    RunIsCourse(g, s, run, t);
    RunIsFair(g, s, run, t);
    forall time: real ensures Passes(steps, time) {
      assert LateFrom(steps, |run|, time);
    }
  }
}
