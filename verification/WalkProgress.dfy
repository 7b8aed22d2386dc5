/** The walk never gets stuck: progress is bounded, and whatever has happened so far the walk
    can still reach its outcome. */
module WalkProgress {
  import opened Graphs
  import opened ReadySets
  import opened RateLimiters
  import opened Walks
  import opened WalkPlaces
  import opened WalkHistory
  import opened WalkControl

  // ----- the sum of stages -----

  /** How many moves are ahead of a node. */
  ghost function Ahead(p: Place, workers: seq<Worker>): nat {
    match p
    case Waiting => 7
    case Ready => 6
    case Tasked => 5
    case Held(i) =>
      if i >= |workers| then 0 else
      (match workers[i]
       case Holding(_) => 4
       case Running(_) => 3
       case Returned(_) => 2
       case Failing(_) => 1
       case _ => 0)
    case Finishing => 1
    case Finished => 0
  }

  ghost function AtLeast(place: map<Node, Place>, workers: seq<Worker>, k: nat): set<Node> {
    set n | n in place && Ahead(place[n], workers) >= k
  }

  /** The number of moves ahead of all nodes together. */
  ghost function MovesLeft(place: map<Node, Place>, workers: seq<Worker>, k: nat): nat {
    if k == 0 then 0 else |AtLeast(place, workers, k)| + MovesLeft(place, workers, k - 1)
  }

  ghost function Measure(s: Walk): nat {
    MovesLeft(s.place, s.workers, 7)
  }

  lemma SubsetSize(a: set<Node>, b: set<Node>)
    requires a <= b
    ensures |a| <= |b| && (a != b ==> |a| < |b|)
  {
    assert b == a + (b - a);
    if a != b {
      assert b - a != {};
    }
  }

  lemma {:induction false} MovesShrink(
    place: map<Node, Place>, workers: seq<Worker>, place': map<Node, Place>, workers': seq<Worker>, k: nat)
    requires place'.Keys == place.Keys
    requires forall n :: n in place ==> Ahead(place'[n], workers') <= Ahead(place[n], workers)
    ensures MovesLeft(place', workers', k) <= MovesLeft(place, workers, k)
  {
    if k > 0 {
      MovesShrink(place, workers, place', workers', k - 1);
      SubsetSize(AtLeast(place', workers', k), AtLeast(place, workers, k));
    }
  }

  lemma {:induction false} MovesDrop(
    place: map<Node, Place>, workers: seq<Worker>, place': map<Node, Place>, workers': seq<Worker>, k: nat, n: Node)
    requires place'.Keys == place.Keys
    requires forall m :: m in place ==> Ahead(place'[m], workers') <= Ahead(place[m], workers)
    requires n in place && Ahead(place'[n], workers') < Ahead(place[n], workers) <= k
    ensures MovesLeft(place', workers', k) < MovesLeft(place, workers, k)
  {
    SubsetSize(AtLeast(place', workers', k), AtLeast(place, workers, k));
    if Ahead(place[n], workers) == k {
      assert n in AtLeast(place, workers, k) && n !in AtLeast(place', workers', k);
      MovesShrink(place, workers, place', workers', k - 1);
    } else {
      MovesDrop(place, workers, place', workers', k - 1, n);
    }
  }

  lemma {:induction false} MovesBound(place: map<Node, Place>, workers: seq<Worker>, k: nat)
    ensures MovesLeft(place, workers, k) <= k * |place|
  {
    if k > 0 {
      MovesBound(place, workers, k - 1);
      assert |place| == |place.Keys|;
      SubsetSize(AtLeast(place, workers, k), place.Keys);
      assert k * |place| == |place| + (k - 1) * |place|;
    }
  }

  /** Steps that are not mere polling: a node moves on. */
  predicate MovesNode(s: Walk, step: Step) {
    match step
    case Push(now) => s.ready.queue != [] && s.limiter.Grants(now)
    case Pull(_) => s.done != []
    case WorkerTake(_) => s.tasks != []
    case WorkerStart(_) => true
    case WorkerReturn(_) => true
    case WorkerFail(_) => true
    case WorkerPut(_) => true
    case WorkerAbort(_) => true
    case _ => false
  }

  lemma WorkerMoves(place: map<Node, Place>, workers: seq<Worker>, i: nat, w: Worker)
    requires HeldByWorkers(place, workers) && i < |workers| && Busy(workers[i])
    requires Ahead(Held(i), workers[i := w]) < Ahead(Held(i), workers)
    ensures MovesLeft(place, workers[i := w], 7) < MovesLeft(place, workers, 7)
  {
    var n := workers[i].node;
    assert forall p: Place :: p != Held(i) ==> Ahead(p, workers[i := w]) == Ahead(p, workers);
    MovesDrop(place, workers, place, workers[i := w], 7, n);
  }

  lemma PushMoves(g: Graph, s: Walk, now: real)
    requires Located(g, s) && s.ready.queue != [] && s.limiter.Grants(now)
    ensures Measure(AfterPush(s, now)) < Measure(s)
  {
    var n := s.ready.queue[|s.ready.queue| - 1];
    assert n in s.ready.queue;
    MovesDrop(s.place, s.workers, s.place[n := Tasked], s.workers, 7, n);
  }

  lemma PullMoves(g: Graph, s: Walk, released: seq<Node>)
    requires Located(g, s) && WaitsForDependencies(g, s) && Enabled(g, s, Pull(released)) && s.done != []
    ensures Measure(AfterPull(s, released)) < Measure(s)
  {
    ReleasedWereWaiting(g, s, released);
    MovesDrop(s.place, s.workers, AfterPull(s, released).place, s.workers, 7, s.done[0]);
  }

  lemma TakeMoves(g: Graph, s: Walk, i: nat)
    requires Located(g, s) && Enabled(g, s, WorkerTake(i)) && s.tasks != []
    ensures Measure(Apply(g, s, WorkerTake(i))) < Measure(s)
  {
    var n := s.tasks[0];
    assert n in s.tasks;
    var workers' := s.workers[i := Holding(n)];
    assert forall p: Place :: p != Held(i) ==> Ahead(p, workers') == Ahead(p, s.workers);
    MovesDrop(s.place, s.workers, s.place[n := Held(i)], workers', 7, n);
  }

  lemma PutMoves(g: Graph, s: Walk, i: nat)
    requires Located(g, s) && Enabled(g, s, WorkerPut(i))
    ensures Measure(Apply(g, s, WorkerPut(i))) < Measure(s)
  {
    var n := s.workers[i].node;
    var workers' := s.workers[i := Idle];
    assert forall p: Place :: p != Held(i) ==> Ahead(p, workers') == Ahead(p, s.workers);
    MovesDrop(s.place, s.workers, s.place[n := Finishing], workers', 7, n);
  }

  /** The measure drops on every step that moves a node. */
  lemma MovingStepsDrop(g: Graph, s: Walk, step: Step)
    requires Placed(g, s) && Enabled(g, s, step) && MovesNode(s, step)
    ensures Measure(Apply(g, s, step)) < Measure(s)
  {
    match step
    case Push(now) => PushMoves(g, s, now);
    case Pull(released) => PullMoves(g, s, released);
    case WorkerTake(i) => TakeMoves(g, s, i);
    case WorkerPut(i) => PutMoves(g, s, i);
    case WorkerStart(i) => WorkerMoves(s.place, s.workers, i, Running(s.workers[i].node));
    case WorkerReturn(i) => WorkerMoves(s.place, s.workers, i, Returned(s.workers[i].node));
    case WorkerFail(i) => WorkerMoves(s.place, s.workers, i, Failing(s.workers[i].node));
    case WorkerAbort(i) => WorkerMoves(s.place, s.workers, i, Raised(s.workers[i].node));
  }

  lemma WorkerPolls(place: map<Node, Place>, workers: seq<Worker>, i: nat, w: Worker)
    requires i < |workers| && !Busy(workers[i]) && !Busy(w)
    ensures MovesLeft(place, workers[i := w], 7) == MovesLeft(place, workers, 7)
  {
    assert forall p: Place :: Ahead(p, workers[i := w]) == Ahead(p, workers);
    MovesShrink(place, workers, place, workers[i := w], 7);
    MovesShrink(place, workers[i := w], place, workers, 7);
  }

  /** ... and polling leaves it alone. */
  lemma PollingStepsStay(g: Graph, s: Walk, step: Step)
    requires Enabled(g, s, step) && !MovesNode(s, step)
    ensures Measure(Apply(g, s, step)) == Measure(s)
  {
    match step
    case WorkerTest(i) => WorkerPolls(s.place, s.workers, i, if s.shutdown then Exited else Armed);
    case WorkerTake(i) => WorkerPolls(s.place, s.workers, i, Idle);
    case _ =>
  }

  ghost function MovesIn(g: Graph, s: Walk, steps: seq<Step>, t: Walk): nat
    requires Leads(g, s, steps, t)
    decreases |steps|
  {
    if steps == [] then 0
    else (if MovesNode(s, steps[0]) then 1 else 0) + MovesIn(g, Apply(g, s, steps[0]), steps[1..], t)
  }

  /** No run, however long and however it is scheduled, moves nodes more often than the
      stages at its start allow. */
  lemma {:induction false} MovesAreBounded(g: Graph, s: Walk, steps: seq<Step>, t: Walk)
    requires Complete(g) && Inv(g, s) && Leads(g, s, steps, t)
    ensures MovesIn(g, s, steps, t) + Measure(t) <= Measure(s) <= 7 * |g|
    decreases |steps|
  {
    MovesBound(s.place, s.workers, 7);
    assert |s.place| == |s.place.Keys| == |g|;
    if steps != [] {
      StepKeepsInv(g, s, steps[0]);
      if MovesNode(s, steps[0]) {
        MovingStepsDrop(g, s, steps[0]);
      } else {
        PollingStepsStay(g, s, steps[0]);
      }
      MovesAreBounded(g, Apply(g, s, steps[0]), steps[1..], t);
    }
  }

  // ----- no deadlock -----

  ghost predicate SomeoneFailed(workers: seq<Worker>) {
    exists i :: 0 <= i < |workers| && (workers[i].Failing? || workers[i].Raised?)
  }

  ghost predicate SomeoneWorks(workers: seq<Worker>) {
    exists i :: 0 <= i < |workers| && (workers[i].Holding? || workers[i].Running? || workers[i].Returned?)
  }

  /** While something is unfinished, some unfinished node waits for nothing. */
  lemma SomeReleasedNode(g: Graph, finished: set<Node>) returns (n: Node)
    requires Accepted(g) && finished <= g.Keys && finished != g.Keys
    ensures n in g && n !in finished && Released(g, finished, n)
  {
    var unfinished := g.Keys - finished;
    assert finished == g.Keys - unfinished;
    SourceExists(g, unfinished);
    n :| n in unfinished && !HasEdgeInto(g, n, unfinished);
    forall d | Edge(g, n, d) ensures d in finished {
      assert d in g;
    }
  }

  /** Until everything is finished or something failed, some node is on its way. */
  lemma {:induction false} SomethingIsOnItsWay(g: Graph, s: Walk)
    requires Accepted(g) && Placed(g, s) && !IsDone(g, s.ready) && !SomeoneFailed(s.workers)
    ensures s.ready.queue != [] || s.tasks != [] || s.done != [] || SomeoneWorks(s.workers)
  {
    var n := SomeReleasedNode(g, s.ready.finished);
    if s.place[n].Held? {
      assert Busy(s.workers[s.place[n].worker]);
    }
  }

  lemma ReleasedIsSomewhere(g: Graph, s: Walk, n: Node)
    requires Located(g, s) && WaitsForDependencies(g, s) && Released(g, s.ready.finished, n)
    requires s.ready.queue == [] && s.tasks == [] && s.done == []
    requires forall i :: 0 <= i < |s.workers| ==> !Busy(s.workers[i])
    ensures n in s.ready.finished
  {
    assert n !in s.ready.queue && n !in s.tasks && n !in s.done;
  }

  lemma {:induction false} NothingOnItsWayIsDone(g: Graph, s: Walk)
    requires Accepted(g) && Placed(g, s)
    requires s.ready.queue == [] && s.tasks == [] && s.done == []
    requires forall i :: 0 <= i < |s.workers| ==> !Busy(s.workers[i])
    ensures IsDone(g, s.ready)
  {
    assert s.ready.finished <= g.Keys;
    if s.ready.finished != g.Keys {
      var n := SomeReleasedNode(g, s.ready.finished);
      ReleasedIsSomewhere(g, s, n);
    }
  }
}
