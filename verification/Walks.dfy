/** `DAG.walk_parallel` of `scripts/ci/dag.py` as a step system: the main thread and any number
    of workers interleave arbitrarily, each step being one atomic action of one of them. */
module Walks {
  import opened Graphs
  import opened ReadySets
  import opened RateLimiters
  import Runs

  /** Where a worker is in its loop. */
  datatype Worker =
    | Idle                  // about to test `shutdown`
    | Armed                 // found it unset, about to ask for a task
    | Holding(node: Node)   // has taken a task
    | Running(node: Node)   // inside `f`
    | Returned(node: Node)  // `f` returned
    | Failing(node: Node)   // `f` raised
    | Raised(node: Node)    // `shutdown` set, exception passed on to the future
    | Exited

  /** Where the main thread is. */
  datatype Main =
    | LoopHead              // about to test `shutdown`
    | DoneCheck
    | SanityCheck
    | Pushing
    | Pulling
    | Joining(next: nat)    // in `futures[next].result()`
    | Completed             // `walk_parallel` returned
    | Reraised(from: nat)   // it raises what that worker raised
    | AssertionFailed

  /** What has happened so far; `late` marks a start after `shutdown` was set. */
  datatype Event =
    | Began(worker: nat, node: Node, late: bool)
    | Ended(node: Node)
    | Failed(node: Node)

  datatype Place = Waiting | Ready | Tasked | Held(worker: nat) | Finishing | Finished

  /** `place` and `log` record history; no step reads them. */
  datatype Walk = Walk(
    ready: ReadySet,
    tasks: seq<Node>,
    done: seq<Node>,
    workers: seq<Worker>,
    shutdown: bool,
    main: Main,
    limiter: Limiter,
    place: map<Node, Place>,
    log: seq<Event>)

  datatype Step =
    | TestShutdown
    | TestDone
    | CheckSanity
    | Push(now: real)
    | Pull(released: seq<Node>)
    | Join
    | WorkerTest(worker: nat)
    | WorkerTake(worker: nat)
    | WorkerStart(worker: nat)
    | WorkerReturn(worker: nat)
    | WorkerFail(worker: nat)
    | WorkerPut(worker: nat)
    | WorkerAbort(worker: nat)

  ghost predicate Init(g: Graph, s: Walk) {
    && Initial(g, s.ready) && s.tasks == [] && s.done == []
    && s.workers != [] && (forall i :: 0 <= i < |s.workers| ==> s.workers[i] == Idle)
    && !s.shutdown && s.main == LoopHead
    && s.limiter.usedTokens == 0 && s.limiter.tokensPerSecond > 0.0
    && s.place == (map n | n in g :: if n in s.ready.queue then Ready else Waiting)
    && s.log == []
  }

  ghost predicate Enabled(g: Graph, s: Walk, step: Step) {
    match step
    case TestShutdown => s.main == LoopHead
    case TestDone => s.main == DoneCheck
    case CheckSanity => s.main == SanityCheck
    case Push(_) => s.main == Pushing
    case Pull(released) =>
      && s.main == Pulling
      && (s.done != [] ==> Unblocks(g, s.ready.finished, s.done[0], released))
    case Join =>
      && s.main.Joining?
      && (s.main.next < |s.workers| ==> s.workers[s.main.next].Exited? || s.workers[s.main.next].Raised?)
    case WorkerTest(i) => i < |s.workers| && s.workers[i] == Idle
    case WorkerTake(i) => i < |s.workers| && s.workers[i] == Armed
    case WorkerStart(i) => i < |s.workers| && s.workers[i].Holding?
    case WorkerReturn(i) => i < |s.workers| && s.workers[i].Running?
    case WorkerFail(i) => i < |s.workers| && s.workers[i].Running?
    case WorkerPut(i) => i < |s.workers| && s.workers[i].Returned?
    case WorkerAbort(i) => i < |s.workers| && s.workers[i].Failing?
  }

  function Become(s: Walk, i: nat, w: Worker): Walk
    requires i < |s.workers|
  {
    s.(workers := s.workers[i := w])
  }

  function AfterPush(s: Walk, now: real): Walk {
    if s.ready.queue == [] || !s.limiter.Grants(now) then s.(main := Pulling)
    else
      var last := |s.ready.queue| - 1;
      var n := s.ready.queue[last];
      s.(ready := s.ready.(queue := s.ready.queue[..last]),
         tasks := s.tasks + [n],
         limiter := s.limiter.After(now),
         place := s.place[n := Tasked])
  }

  function AfterPull(s: Walk, released: seq<Node>): Walk {
    if s.done == [] then s.(main := LoopHead)
    else
      var n := s.done[0];
      s.(ready := ReadySet(s.ready.finished + {n}, s.ready.queue + released, s.ready.started),
         done := s.done[1..],
         place := map m | m in s.place :: if m == n then Finished else if m in released then Ready else s.place[m])
  }

  function AfterJoin(s: Walk): Walk
    requires s.main.Joining?
  {
    var i := s.main.next;
    if i >= |s.workers| then s.(main := Completed)
    else if s.workers[i].Exited? then s.(main := Joining(i + 1))
    else s.(main := Reraised(i))
  }

  ghost function Apply(g: Graph, s: Walk, step: Step): Walk
    requires Enabled(g, s, step)
  {
    match step
    case TestShutdown => s.(main := if s.shutdown then Joining(0) else DoneCheck)
    case TestDone =>
      if IsDone(g, s.ready) then s.(shutdown := true, main := SanityCheck) else s.(main := Pushing)
    case CheckSanity => s.(main := if Sane(g, s.ready) then Joining(0) else AssertionFailed)
    case Push(now) => AfterPush(s, now)
    case Pull(released) => AfterPull(s, released)
    case Join => AfterJoin(s)
    case WorkerTest(i) => Become(s, i, if s.shutdown then Exited else Armed)
    case WorkerTake(i) =>
      if s.tasks == [] then Become(s, i, Idle)
      else Become(s, i, Holding(s.tasks[0])).(tasks := s.tasks[1..], place := s.place[s.tasks[0] := Held(i)])
    case WorkerStart(i) =>
      var n := s.workers[i].node;
      Become(s, i, Running(n)).(
        ready := s.ready.(started := s.ready.started + {n}),
        log := s.log + [Began(i, n, s.shutdown)])
    case WorkerReturn(i) => Become(s, i, Returned(s.workers[i].node)).(log := s.log + [Ended(s.workers[i].node)])
    case WorkerFail(i) => Become(s, i, Failing(s.workers[i].node)).(log := s.log + [Failed(s.workers[i].node)])
    case WorkerPut(i) =>
      var n := s.workers[i].node;
      Become(s, i, Idle).(done := s.done + [n], place := s.place[n := Finishing])
    case WorkerAbort(i) => Become(s, i, Raised(s.workers[i].node)).(shutdown := true)
  }

  /** The transition function of the walk over `g`. */
  ghost function Moves(g: Graph): (Walk, Step) -> Option<Walk> {
    (s: Walk, step: Step) => if Enabled(g, s, step) then Some(Apply(g, s, step)) else None
  }

  /** `steps` leads from `s` to `t`. */
  ghost predicate Leads(g: Graph, s: Walk, steps: seq<Step>, t: Walk) {
    Runs.Leads(Moves(g), s, steps, t)
  }

  ghost predicate Reachable(g: Graph, t: Walk) {
    exists s, steps :: Init(g, s) && Leads(g, s, steps, t)
  }

  predicate Busy(w: Worker) {
    w.Holding? || w.Running? || w.Returned? || w.Failing? || w.Raised?
  }

  /** `f` was called on the node. */
  predicate HasBegun(w: Worker) {
    Busy(w) && !w.Holding?
  }

  // ----- the invariant -----

  /** Every node is in exactly the one place that `place` names, and there once. */
  ghost predicate Located(g: Graph, s: Walk) {
    && s.place.Keys == g.Keys
    && Lists(s.place, s.ready.queue, Ready)
    && Lists(s.place, s.tasks, Tasked)
    && Lists(s.place, s.done, Finishing)
    && (forall n :: n in s.ready.finished <==> n in s.place && s.place[n] == Finished)
    && HeldByWorkers(s.place, s.workers)
  }

  ghost predicate Lists(place: map<Node, Place>, ns: seq<Node>, p: Place) {
    NoDuplicates(ns) && forall n :: n in ns <==> n in place && place[n] == p
  }

  ghost predicate HeldByWorkers(place: map<Node, Place>, workers: seq<Worker>) {
    && (forall i :: 0 <= i < |workers| && Busy(workers[i]) ==>
          workers[i].node in place && place[workers[i].node] == Held(i))
    && forall n :: n in place && place[n].Held? ==>
          place[n].worker < |workers| && Busy(workers[place[n].worker]) && workers[place[n].worker].node == n
  }

  /** Nodes wait exactly while one of their dependencies is unfinished. */
  ghost predicate WaitsForDependencies(g: Graph, s: Walk) {
    Waits(g, s.ready.finished, s.place)
  }

  ghost predicate Waits(g: Graph, finished: set<Node>, place: map<Node, Place>) {
    forall n :: n in g && n in place ==> (place[n] == Waiting <==> !Released(g, finished, n))
  }

  ghost predicate BegunAt(p: Place, workers: seq<Worker>) {
    p == Finishing || p == Finished || (p.Held? && p.worker < |workers| && HasBegun(workers[p.worker]))
  }

  ghost predicate StartedAreBegun(s: Walk) {
    Begun(s.place, s.workers, s.ready.started)
  }

  ghost predicate Begun(place: map<Node, Place>, workers: seq<Worker>, started: set<Node>) {
    forall n :: n in started <==> n in place && BegunAt(place[n], workers)
  }
}
