/** What every run of the walk keeps about `shutdown`, the end of the walk and the tokens. */
module WalkControl {
  import opened Graphs
  import opened ReadySets
  import opened RateLimiters
  import opened Walks
  import opened WalkPlaces
  import opened WalkHistory

  ghost predicate SomeoneRaised(workers: seq<Worker>) {
    exists i :: 0 <= i < |workers| && workers[i].Raised?
  }

  ghost predicate AllExited(workers: seq<Worker>, k: nat) {
    k <= |workers| && forall i :: 0 <= i < k ==> workers[i].Exited?
  }

  /** `shutdown` is set for one of two reasons, and the main thread leaves accordingly. */
  ghost predicate Controlled(g: Graph, s: Walk) {
    && s.workers != []
    && (s.shutdown ==> IsDone(g, s.ready) || SomeoneRaised(s.workers))
    && (forall i :: 0 <= i < |s.workers| && (s.workers[i].Exited? || s.workers[i].Raised?) ==> s.shutdown)
    && match s.main
       case SanityCheck => s.shutdown && IsDone(g, s.ready)
       case Joining(next) => s.shutdown && AllExited(s.workers, next)
       case Completed => s.shutdown && AllExited(s.workers, |s.workers|)
       case Reraised(from) => s.shutdown && AllExited(s.workers, from) && from < |s.workers| && s.workers[from].Raised?
       case AssertionFailed => false
       case _ => true
  }

  /** The completion assertions hold whenever the counter says that all is done. */
  lemma DoneIsSane(g: Graph, s: Walk)
    requires Complete(g) && Located(g, s) && StartedAreBegun(s) && IsDone(g, s.ready)
    ensures Sane(g, s.ready)
  {
    forall n | n in g ensures Unfinished(g[n], s.ready.finished) == 0 && n in s.ready.started {
      UnfinishedZero(g, n, s.ready.finished);
      assert s.place[n] == Finished;
    }
  }

  lemma WorkerKeepsControl(g: Graph, s: Walk, i: nat, w: Worker)
    requires Controlled(g, s) && i < |s.workers|
    requires !s.workers[i].Exited? && !s.workers[i].Raised?
    requires w.Exited? ==> s.shutdown
    requires !w.Raised?
    ensures Controlled(g, Become(s, i, w))
  {
    if SomeoneRaised(s.workers) {
      var j :| 0 <= j < |s.workers| && s.workers[j].Raised?;
      assert s.workers[i := w][j].Raised?;
    }
  }

  lemma AbortKeepsControl(g: Graph, s: Walk, i: nat)
    requires Controlled(g, s) && Enabled(g, s, WorkerAbort(i))
    ensures Controlled(g, Apply(g, s, WorkerAbort(i)))
  {
    assert s.workers[i := Raised(s.workers[i].node)][i].Raised?;
  }

  /** The futures are asked in order, so the first worker that raised is the one that is heard. */
  lemma JoinKeepsControl(g: Graph, s: Walk)
    requires Controlled(g, s) && Enabled(g, s, Join)
    ensures Controlled(g, Apply(g, s, Join))
  {
  }

  lemma MainKeepsControl(g: Graph, s: Walk, step: Step)
    requires Complete(g) && Placed(g, s) && Controlled(g, s) && Enabled(g, s, step)
    requires step.TestShutdown? || step.TestDone? || step.CheckSanity? || step.Push? || step.Pull?
    ensures Controlled(g, Apply(g, s, step))
  {
    match step
    case CheckSanity => DoneIsSane(g, s);
    case Pull(released) =>
      if s.done != [] {
        assert s.done[0] in s.done && s.done[0] in g.Keys;
      }
    case _ =>
  }

  lemma StepKeepsControl(g: Graph, s: Walk, step: Step)
    requires Complete(g) && Placed(g, s) && Controlled(g, s) && Enabled(g, s, step)
    ensures Controlled(g, Apply(g, s, step))
  {
    match step
    case WorkerTest(i) => WorkerKeepsControl(g, s, i, if s.shutdown then Exited else Armed);
    case WorkerTake(i) => WorkerKeepsControl(g, s, i, if s.tasks == [] then Idle else Holding(s.tasks[0]));
    case WorkerStart(i) => WorkerKeepsControl(g, s, i, Running(s.workers[i].node));
    case WorkerReturn(i) => WorkerKeepsControl(g, s, i, Returned(s.workers[i].node));
    case WorkerFail(i) => WorkerKeepsControl(g, s, i, Failing(s.workers[i].node));
    case WorkerPut(i) => WorkerKeepsControl(g, s, i, Idle);
    case WorkerAbort(i) => AbortKeepsControl(g, s, i);
    case Join => JoinKeepsControl(g, s);
    case _ => MainKeepsControl(g, s, step);
  }

  // ----- starts after shutdown -----

  function LateStarts(log: seq<Event>, worker: nat): nat {
    if log == [] then 0
    else
      var last := log[|log| - 1];
      LateStarts(log[..|log| - 1], worker) + if last.Began? && last.worker == worker && last.late then 1 else 0
  }

  /** Only a worker that found `shutdown` unset can still start something. */
  ghost predicate AtMostOneLateStart(s: Walk) {
    LateStartsCapped(s.shutdown, s.workers, s.log)
  }

  ghost predicate LateStartsCapped(shutdown: bool, workers: seq<Worker>, log: seq<Event>) {
    forall i :: 0 <= i < |workers| ==> LateStarts(log, i) <= LateCap(shutdown, workers[i])
  }

  function LateCap(shutdown: bool, w: Worker): nat {
    if !shutdown || w.Armed? || w.Holding? then 0 else 1
  }

  lemma LateStartsGain(log: seq<Event>, e: Event)
    ensures forall i ::
      LateStarts(log + [e], i) == LateStarts(log, i) + if e.Began? && e.worker == i && e.late then 1 else 0
  {
    assert (log + [e])[..|log|] == log;
  }

  /** Worker `i` changes; what the log gains is a start by `i` or nothing late. */
  lemma CapKept(shutdown: bool, workers: seq<Worker>, log: seq<Event>, i: nat, w: Worker, log': seq<Event>)
    requires LateStartsCapped(shutdown, workers, log) && i < |workers|
    requires forall j :: j != i ==> LateStarts(log', j) == LateStarts(log, j)
    requires LateStarts(log', i) + LateCap(shutdown, workers[i]) <= LateStarts(log, i) + LateCap(shutdown, w)
    ensures LateStartsCapped(shutdown, workers[i := w], log')
  {
  }

  lemma StepKeepsLateStarts(g: Graph, s: Walk, step: Step)
    requires AtMostOneLateStart(s) && Enabled(g, s, step)
    ensures AtMostOneLateStart(Apply(g, s, step))
  {
    match step
    case WorkerTest(i) => CapKept(s.shutdown, s.workers, s.log, i, if s.shutdown then Exited else Armed, s.log);
    case WorkerTake(i) =>
      CapKept(s.shutdown, s.workers, s.log, i, if s.tasks == [] then Idle else Holding(s.tasks[0]), s.log);
    case WorkerStart(i) =>
      var n := s.workers[i].node;
      LateStartsGain(s.log, Began(i, n, s.shutdown));
      CapKept(s.shutdown, s.workers, s.log, i, Running(n), s.log + [Began(i, n, s.shutdown)]);
    case WorkerReturn(i) =>
      var n := s.workers[i].node;
      LateStartsGain(s.log, Ended(n));
      CapKept(s.shutdown, s.workers, s.log, i, Returned(n), s.log + [Ended(n)]);
    case WorkerFail(i) =>
      var n := s.workers[i].node;
      LateStartsGain(s.log, Failed(n));
      CapKept(s.shutdown, s.workers, s.log, i, Failing(n), s.log + [Failed(n)]);
    case WorkerPut(i) => CapKept(s.shutdown, s.workers, s.log, i, Idle, s.log);
    case WorkerAbort(i) => CapKept(s.shutdown, s.workers, s.log, i, Raised(s.workers[i].node), s.log);
    case _ =>
  }

  // ----- tokens -----

  /** The nodes that were put on the task queue. */
  ghost function Pushed(place: map<Node, Place>): set<Node> {
    set n | n in place && IsPushed(place[n])
  }

  ghost predicate IsPushed(p: Place) {
    p != Waiting && p != Ready
  }

  ghost predicate TokensSpent(s: Walk) {
    s.limiter.usedTokens == |Pushed(s.place)| && s.limiter.tokensPerSecond > 0.0
  }

  lemma PushedGains(place: map<Node, Place>, n: Node)
    requires n in place && place[n] == Ready
    ensures |Pushed(place[n := Tasked])| == |Pushed(place)| + 1
  {
    assert Pushed(place[n := Tasked]) == Pushed(place) + {n};
  }

  lemma PushedStays(place: map<Node, Place>, place': map<Node, Place>)
    requires place'.Keys == place.Keys
    requires forall n :: n in place ==> IsPushed(place'[n]) == IsPushed(place[n])
    ensures Pushed(place') == Pushed(place)
  {
    assert forall n :: n in place ==> IsPushed(place'[n]) == IsPushed(place[n]);
  }

  lemma PushKeepsTokens(g: Graph, s: Walk, now: real)
    requires Located(g, s) && TokensSpent(s)
    ensures TokensSpent(AfterPush(s, now))
  {
    if s.ready.queue != [] && s.limiter.Grants(now) {
      var n := s.ready.queue[|s.ready.queue| - 1];
      assert n in s.ready.queue;
      PushedGains(s.place, n);
    }
  }

  lemma PullKeepsTokens(g: Graph, s: Walk, released: seq<Node>)
    requires Located(g, s) && WaitsForDependencies(g, s) && TokensSpent(s) && Enabled(g, s, Pull(released))
    ensures TokensSpent(AfterPull(s, released))
  {
    if s.done != [] {
      ReleasedWereWaiting(g, s, released);
      PushedStays(s.place, AfterPull(s, released).place);
    }
  }

  lemma StepKeepsTokens(g: Graph, s: Walk, step: Step)
    requires Placed(g, s) && TokensSpent(s) && Enabled(g, s, step)
    ensures TokensSpent(Apply(g, s, step))
  {
    match step
    case Push(now) => PushKeepsTokens(g, s, now);
    case Pull(released) => PullKeepsTokens(g, s, released);
    case WorkerTake(i) =>
      if s.tasks != [] {
        assert s.tasks[0] in s.tasks;
        PushedStays(s.place, s.place[s.tasks[0] := Held(i)]);
      }
    case WorkerPut(i) => PushedStays(s.place, s.place[s.workers[i].node := Finishing]);
    case _ =>
  }

  // ----- everything, over whole runs -----

  ghost predicate Inv(g: Graph, s: Walk) {
    && Placed(g, s) && Recorded(s) && Orderly(g, s.log)
    && Controlled(g, s) && AtMostOneLateStart(s) && TokensSpent(s)
  }

  lemma InitInv(g: Graph, s: Walk)
    requires Complete(g) && Init(g, s)
    ensures Inv(g, s)
  {
    InitPlaces(g, s);
    assert Pushed(s.place) == {};
  }

  lemma {:induction false} StepKeepsInv(g: Graph, s: Walk, step: Step)
    requires Complete(g) && Inv(g, s) && Enabled(g, s, step)
    ensures Inv(g, Apply(g, s, step))
  {
    StepKeepsPlaces(g, s, step);
    StepKeepsWaiting(g, s, step);
    StepKeepsStarted(g, s, step);
    StepKeepsBegunIn(g, s, step);
    StepKeepsAgreement(g, s, step);
    StepKeepsOrder(g, s, step);
    StepKeepsControl(g, s, step);
    StepKeepsLateStarts(g, s, step);
    StepKeepsTokens(g, s, step);
  }

  lemma {:induction false} RunKeepsInv(g: Graph, s: Walk, steps: seq<Step>, t: Walk)
    requires Complete(g) && Inv(g, s) && Leads(g, s, steps, t)
    ensures Inv(g, t)
    decreases |steps|
  {
    if steps != [] {
      StepKeepsInv(g, s, steps[0]);
      RunKeepsInv(g, Apply(g, s, steps[0]), steps[1..], t);
    }
  }

  lemma ReachableInv(g: Graph, t: Walk)
    requires Complete(g) && Reachable(g, t)
    ensures Inv(g, t)
  {
    var s, steps :| Init(g, s) && Leads(g, s, steps, t);
    InitInv(g, s);
    RunKeepsInv(g, s, steps, t);
  }
}
