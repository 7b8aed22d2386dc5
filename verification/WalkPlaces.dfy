/** Every step of the walk keeps each node in exactly one place. */
module WalkPlaces {
  import opened Graphs
  import opened ReadySets
  import opened RateLimiters
  import opened Walks

  // ----- moving one node -----

  lemma ListGains(place: map<Node, Place>, ns: seq<Node>, p: Place, n: Node)
    requires Lists(place, ns, p) && n in place && place[n] != p
    ensures Lists(place[n := p], ns + [n], p)
  {
    assert n !in ns;
  }

  lemma ListLosesFirst(place: map<Node, Place>, ns: seq<Node>, p: Place, q: Place)
    requires Lists(place, ns, p) && ns != [] && p != q
    ensures Lists(place[ns[0] := q], ns[1..], p)
  {
    assert ns == [ns[0]] + ns[1..];
  }

  lemma ListLosesLast(place: map<Node, Place>, ns: seq<Node>, p: Place, q: Place)
    requires Lists(place, ns, p) && ns != [] && p != q
    ensures Lists(place[ns[|ns| - 1] := q], ns[..|ns| - 1], p)
  {
    assert ns == ns[..|ns| - 1] + [ns[|ns| - 1]];
  }

  lemma ListUntouched(place: map<Node, Place>, ns: seq<Node>, p: Place, n: Node, q: Place)
    requires Lists(place, ns, p) && n in place && place[n] != p && p != q
    ensures Lists(place[n := q], ns, p)
  {
  }

  lemma WorkersUntouched(place: map<Node, Place>, workers: seq<Worker>, n: Node, q: Place)
    requires HeldByWorkers(place, workers) && n in place && !place[n].Held? && !q.Held?
    ensures HeldByWorkers(place[n := q], workers)
  {
  }

  lemma WorkerGains(place: map<Node, Place>, workers: seq<Worker>, i: nat, n: Node)
    requires HeldByWorkers(place, workers) && n in place && !place[n].Held?
    requires i < |workers| && !Busy(workers[i])
    ensures HeldByWorkers(place[n := Held(i)], workers[i := Holding(n)])
  {
  }

  lemma WorkerLoses(place: map<Node, Place>, workers: seq<Worker>, i: nat, q: Place)
    requires HeldByWorkers(place, workers) && i < |workers| && Busy(workers[i]) && !q.Held?
    ensures HeldByWorkers(place[workers[i].node := q], workers[i := Idle])
  {
  }

  lemma WorkerStays(place: map<Node, Place>, workers: seq<Worker>, i: nat, w: Worker)
    requires HeldByWorkers(place, workers) && i < |workers|
    requires Busy(workers[i]) == Busy(w) && (Busy(w) ==> w.node == workers[i].node)
    ensures HeldByWorkers(place, workers[i := w])
  {
  }

  // ----- the steps that move a node -----

  lemma PushKeepsPlaces(g: Graph, s: Walk, now: real)
    requires Located(g, s)
    ensures Located(g, AfterPush(s, now))
  {
    if s.ready.queue != [] && s.limiter.Grants(now) {
      var q := s.ready.queue;
      var n := q[|q| - 1];
      assert n in q;
      ListLosesLast(s.place, q, Ready, Tasked);
      ListGains(s.place, s.tasks, Tasked, n);
      ListUntouched(s.place, s.done, Finishing, n, Tasked);
      WorkersUntouched(s.place, s.workers, n, Tasked);
    }
  }

  lemma TakeKeepsPlaces(g: Graph, s: Walk, i: nat)
    requires Located(g, s) && Enabled(g, s, WorkerTake(i))
    ensures Located(g, Apply(g, s, WorkerTake(i)))
  {
    if s.tasks != [] {
      var n := s.tasks[0];
      assert n in s.tasks;
      ListUntouched(s.place, s.ready.queue, Ready, n, Held(i));
      ListLosesFirst(s.place, s.tasks, Tasked, Held(i));
      ListUntouched(s.place, s.done, Finishing, n, Held(i));
      WorkerGains(s.place, s.workers, i, n);
    } else {
      WorkerStays(s.place, s.workers, i, Idle);
    }
  }

  lemma PutKeepsPlaces(g: Graph, s: Walk, i: nat)
    requires Located(g, s) && Enabled(g, s, WorkerPut(i))
    ensures Located(g, Apply(g, s, WorkerPut(i)))
  {
    var n := s.workers[i].node;
    ListUntouched(s.place, s.ready.queue, Ready, n, Finishing);
    ListUntouched(s.place, s.tasks, Tasked, n, Finishing);
    ListGains(s.place, s.done, Finishing, n);
    WorkerLoses(s.place, s.workers, i, Finishing);
  }

  /** The nodes a finished node releases were waiting. */
  lemma ReleasedWereWaiting(g: Graph, s: Walk, released: seq<Node>)
    requires Located(g, s) && WaitsForDependencies(g, s) && s.done != []
    requires Unblocks(g, s.ready.finished, s.done[0], released)
    ensures forall m :: m in released ==> m in s.place && s.place[m] == Waiting
    ensures s.done[0] in s.place && s.place[s.done[0]] == Finishing
  {
    assert s.done[0] in s.done;
  }

  lemma QueueGainsReleased(place: map<Node, Place>, place': map<Node, Place>, q: seq<Node>, released: seq<Node>)
    requires Lists(place, q, Ready) && NoDuplicates(released)
    requires forall m :: m in released ==> m in place && place[m] == Waiting
    requires place'.Keys == place.Keys
    requires forall m :: m in place ==> (place'[m] == Ready <==> place[m] == Ready || m in released)
    ensures Lists(place', q + released, Ready)
  {
    forall i, j | 0 <= i < j < |q + released| ensures (q + released)[i] != (q + released)[j] {
      if i < |q| <= j {
        assert (q + released)[i] in q && (q + released)[j] in released;
      }
    }
  }

  lemma PullKeepsPlaces(g: Graph, s: Walk, released: seq<Node>)
    requires Located(g, s) && WaitsForDependencies(g, s) && Enabled(g, s, Pull(released))
    ensures Located(g, AfterPull(s, released))
  {
    if s.done != [] {
      var n := s.done[0];
      var t := AfterPull(s, released);
      ReleasedWereWaiting(g, s, released);
      assert n !in released;
      QueueGainsReleased(s.place, t.place, s.ready.queue, released);
      ListLosesFirst(s.place, s.done, Finishing, Finished);
    }
  }

  /** Main result: each node stays in exactly one place. */
  lemma {:induction false} StepKeepsPlaces(g: Graph, s: Walk, step: Step)
    requires Located(g, s) && WaitsForDependencies(g, s) && Enabled(g, s, step)
    ensures Located(g, Apply(g, s, step))
  {
    match step
    case Push(now) => PushKeepsPlaces(g, s, now);
    case Pull(released) => PullKeepsPlaces(g, s, released);
    case WorkerTake(i) => TakeKeepsPlaces(g, s, i);
    case WorkerPut(i) => PutKeepsPlaces(g, s, i);
    case WorkerTest(i) => WorkerStays(s.place, s.workers, i, if s.shutdown then Exited else Armed);
    case WorkerStart(i) => WorkerStays(s.place, s.workers, i, Running(s.workers[i].node));
    case WorkerReturn(i) => WorkerStays(s.place, s.workers, i, Returned(s.workers[i].node));
    case WorkerFail(i) => WorkerStays(s.place, s.workers, i, Failing(s.workers[i].node));
    case WorkerAbort(i) => WorkerStays(s.place, s.workers, i, Raised(s.workers[i].node));
    case _ =>
  }

  /** Nodes go on waiting exactly while a dependency is unfinished. */
  lemma StepKeepsWaiting(g: Graph, s: Walk, step: Step)
    requires Located(g, s) && WaitsForDependencies(g, s) && Enabled(g, s, step)
    ensures WaitsForDependencies(g, Apply(g, s, step))
  {
    match step
    case Pull(released) => PullKeepsWaiting(g, s, released);
    case Push(now) =>
      if s.ready.queue != [] {
        WaitsOnMove(g, s.ready.finished, s.place, s.ready.queue, Ready, |s.ready.queue| - 1, Tasked);
      }
    case WorkerTake(i) =>
      if s.tasks != [] {
        WaitsOnMove(g, s.ready.finished, s.place, s.tasks, Tasked, 0, Held(i));
      }
    case WorkerPut(i) =>
    case _ =>
  }

  /** Moving a node between places other than waiting. */
  lemma WaitsOnMove(g: Graph, finished: set<Node>, place: map<Node, Place>, ns: seq<Node>, p: Place, k: nat, q: Place)
    requires Lists(place, ns, p) && k < |ns| && p != Waiting && q != Waiting
    requires Waits(g, finished, place)
    ensures Waits(g, finished, place[ns[k] := q])
  {
    assert ns[k] in ns;
  }

  lemma PullKeepsWaiting(g: Graph, s: Walk, released: seq<Node>)
    requires Located(g, s) && WaitsForDependencies(g, s) && Enabled(g, s, Pull(released))
    ensures WaitsForDependencies(g, AfterPull(s, released))
  {
    if s.done != [] {
      ReleasedWereWaiting(g, s, released);
      var finished := s.ready.finished;
      forall n | Released(g, finished, n) ensures Released(g, finished + {s.done[0]}, n) {}
    }
  }

  lemma BegunStays(place: map<Node, Place>, workers: seq<Worker>, started: set<Node>, i: nat, w: Worker)
    requires Begun(place, workers, started) && i < |workers| && HasBegun(w) == HasBegun(workers[i])
    ensures Begun(place, workers[i := w], started)
  {
    assert forall p: Place :: BegunAt(p, workers[i := w]) == BegunAt(p, workers);
  }

  lemma BegunMoves(place: map<Node, Place>, place': map<Node, Place>, workers: seq<Worker>, started: set<Node>)
    requires Begun(place, workers, started) && place'.Keys == place.Keys
    requires forall n :: n in place ==> BegunAt(place'[n], workers) == BegunAt(place[n], workers)
    ensures Begun(place', workers, started)
  {
  }

  lemma BegunStarts(place: map<Node, Place>, workers: seq<Worker>, started: set<Node>, i: nat)
    requires HeldByWorkers(place, workers) && Begun(place, workers, started)
    requires i < |workers| && workers[i].Holding?
    ensures Begun(place, workers[i := Running(workers[i].node)], started + {workers[i].node})
  {
    var workers' := workers[i := Running(workers[i].node)];
    assert forall p: Place :: BegunAt(p, workers') <==> BegunAt(p, workers) || p == Held(i);
  }

  lemma BegunTakes(place: map<Node, Place>, workers: seq<Worker>, started: set<Node>, i: nat, n: Node)
    requires HeldByWorkers(place, workers) && Begun(place, workers, started)
    requires i < |workers| && workers[i] == Armed && n in place && place[n] == Tasked
    ensures Begun(place[n := Held(i)], workers[i := Holding(n)], started)
  {
    var workers' := workers[i := Holding(n)];
    assert forall p: Place :: BegunAt(p, workers') == BegunAt(p, workers);
  }

  lemma BegunPuts(place: map<Node, Place>, workers: seq<Worker>, started: set<Node>, i: nat)
    requires HeldByWorkers(place, workers) && Begun(place, workers, started)
    requires i < |workers| && workers[i].Returned?
    ensures Begun(place[workers[i].node := Finishing], workers[i := Idle], started)
  {
    var workers' := workers[i := Idle];
    assert forall p: Place :: p != Held(i) ==> BegunAt(p, workers') == BegunAt(p, workers);
  }

  lemma PushKeepsStarted(g: Graph, s: Walk, now: real)
    requires Located(g, s) && StartedAreBegun(s)
    ensures StartedAreBegun(AfterPush(s, now))
  {
    if s.ready.queue != [] {
      assert s.ready.queue[|s.ready.queue| - 1] in s.ready.queue;
      BegunMoves(s.place, AfterPush(s, now).place, s.workers, s.ready.started);
    }
  }

  lemma PullKeepsStarted(g: Graph, s: Walk, released: seq<Node>)
    requires Located(g, s) && StartedAreBegun(s) && WaitsForDependencies(g, s) && Enabled(g, s, Pull(released))
    ensures StartedAreBegun(AfterPull(s, released))
  {
    if s.done != [] {
      ReleasedWereWaiting(g, s, released);
      BegunMoves(s.place, AfterPull(s, released).place, s.workers, s.ready.started);
    }
  }

  lemma {:induction false} StepKeepsStarted(g: Graph, s: Walk, step: Step)
    requires Located(g, s) && StartedAreBegun(s) && WaitsForDependencies(g, s) && Enabled(g, s, step)
    ensures StartedAreBegun(Apply(g, s, step))
  {
    match step
    case Push(now) => PushKeepsStarted(g, s, now);
    case Pull(released) => PullKeepsStarted(g, s, released);
    case WorkerTake(i) =>
      if s.tasks == [] {
        BegunStays(s.place, s.workers, s.ready.started, i, Idle);
      } else {
        assert s.tasks[0] in s.tasks;
        BegunTakes(s.place, s.workers, s.ready.started, i, s.tasks[0]);
      }
    case WorkerPut(i) => BegunPuts(s.place, s.workers, s.ready.started, i);
    case WorkerTest(i) => BegunStays(s.place, s.workers, s.ready.started, i, if s.shutdown then Exited else Armed);
    case WorkerStart(i) => BegunStarts(s.place, s.workers, s.ready.started, i);
    case WorkerReturn(i) => BegunStays(s.place, s.workers, s.ready.started, i, Returned(s.workers[i].node));
    case WorkerFail(i) => BegunStays(s.place, s.workers, s.ready.started, i, Failing(s.workers[i].node));
    case WorkerAbort(i) => BegunStays(s.place, s.workers, s.ready.started, i, Raised(s.workers[i].node));
    case _ =>
  }

  lemma InitPlaces(g: Graph, s: Walk)
    requires Complete(g) && Init(g, s)
    ensures Located(g, s) && WaitsForDependencies(g, s) && StartedAreBegun(s)
  {
  }
}
