/** The order in which the walk hands nodes on, and what still starts once `shutdown` is set, over whole
    runs. */
module WalkQueues {
  import opened Graphs
  import opened Walks
  import opened WalkPlaces
  import opened WalkHistory
  import opened WalkControl

  // ----- nodes only move on -----

  function Rank(p: Place): nat {
    match p
    case Waiting => 0
    case Ready => 1
    case Tasked => 2
    case Held(_) => 3
    case Finishing => 4
    case Finished => 5
  }

  ghost predicate NoneGoesBack(place: map<Node, Place>, now: map<Node, Place>) {
    forall n :: n in place && n in now ==> Rank(place[n]) <= Rank(now[n])
  }

  lemma OneMovesOn(place: map<Node, Place>, n: Node, p: Place)
    requires n in place && Rank(place[n]) <= Rank(p)
    ensures NoneGoesBack(place, place[n := p])
  {
  }

  lemma PullMovesOn(g: Graph, s: Walk, released: seq<Node>)
    requires Located(g, s) && WaitsForDependencies(g, s) && Enabled(g, s, Pull(released))
    ensures NoneGoesBack(s.place, AfterPull(s, released).place)
  {
    if s.done != [] { ReleasedWereWaiting(g, s, released); }
  }

  lemma {:induction false} StepMovesOn(g: Graph, s: Walk, step: Step)
    requires Complete(g) && Placed(g, s) && Enabled(g, s, step)
    ensures NoneGoesBack(s.place, Apply(g, s, step).place)
  {
    match step
    case Push(_) =>
      if s.ready.queue != [] {
        var n := s.ready.queue[|s.ready.queue| - 1];
        assert n in s.ready.queue;
        OneMovesOn(s.place, n, Tasked);
      }
    case Pull(released) => PullMovesOn(g, s, released);
    case WorkerTake(i) =>
      if s.tasks != [] {
        assert s.tasks[0] in s.tasks;
        OneMovesOn(s.place, s.tasks[0], Held(i));
      }
    case WorkerPut(i) => OneMovesOn(s.place, s.workers[i].node, Finishing);
    case _ =>
  }

  lemma {:induction false} RunMovesOn(g: Graph, s: Walk, steps: seq<Step>, t: Walk)
    requires Complete(g) && Inv(g, s) && Leads(g, s, steps, t)
    ensures Inv(g, t) && NoneGoesBack(s.place, t.place)
    decreases |steps|
  {
    if steps != [] {
      StepKeepsInv(g, s, steps[0]);
      StepMovesOn(g, s, steps[0]);
      RunMovesOn(g, Apply(g, s, steps[0]), steps[1..], t);
    }
  }

  // ----- first in, first out -----

  /** `m` nodes have been taken off the front of a queue, for good; new ones are at its end. */
  ghost predicate Advanced(before: seq<Node>, now: seq<Node>, m: nat) {
    && m <= |before| && before[m..] <= now
    && forall i :: 0 <= i < m ==> before[i] !in now
  }

  /** `m` nodes are left of a stack, in their places; those above have been taken for good. */
  ghost predicate Lowered(before: seq<Node>, now: seq<Node>, m: nat) {
    && m <= |before| && before[..m] <= now
    && forall i :: m <= i < |before| ==> before[i] !in now
  }

  lemma AdvancedTwice(a: seq<Node>, b: seq<Node>, c: seq<Node>, m: nat, k: nat) returns (n: nat)
    requires Advanced(a, b, m) && Advanced(b, c, k)
    requires forall i :: 0 <= i < m ==> a[i] !in c
    ensures Advanced(a, c, n)
  {
    n := if m + k <= |a| then m + k else |a|;
    forall i | 0 <= i < n ensures a[i] !in c {
      if i >= m { assert a[i] == a[m..][i - m] == b[i - m]; }
    }
    if n == m + k {
      assert a[n..] == a[m..][k..] && a[m..][k..] <= b[k..];
    }
  }

  lemma LoweredTwice(a: seq<Node>, b: seq<Node>, c: seq<Node>, m: nat, k: nat) returns (n: nat)
    requires Lowered(a, b, m) && Lowered(b, c, k)
    requires forall i :: m <= i < |a| ==> a[i] !in c
    ensures Lowered(a, c, n)
  {
    n := if m <= k then m else k;
    forall i | n <= i < |a| ensures a[i] !in c {
      if i < m { assert a[i] == a[..m][i] == b[i]; }
    }
    assert a[..n] == a[..m][..n] && a[..m][..n] == b[..n] && b[..n] == b[..k][..n];
  }

  lemma AdvancesNone(q: seq<Node>, more: seq<Node>)
    ensures Advanced(q, q + more, 0) && Lowered(q, q + more, |q|)
  {
    assert q[0..] == q && q[..|q|] == q;
  }

  lemma AdvancesOne(q: seq<Node>)
    requires q != [] && NoDuplicates(q)
    ensures Advanced(q, q[1..], 1)
    ensures Lowered(q, q[..|q| - 1], |q| - 1)
  {
  }

  lemma {:induction false} StepKeepsTasks(g: Graph, s: Walk, step: Step) returns (m: nat)
    requires Complete(g) && Located(g, s) && Enabled(g, s, step)
    ensures Advanced(s.tasks, Apply(g, s, step).tasks, m)
  {
    AdvancesNone(s.tasks, []);
    assert s.tasks + [] == s.tasks;
    m := 0;
    match step
    case Push(_) =>
      if s.ready.queue != [] { AdvancesNone(s.tasks, [s.ready.queue[|s.ready.queue| - 1]]); }
    case WorkerTake(_) => if s.tasks != [] { AdvancesOne(s.tasks); m := 1; }
    case _ =>
  }

  lemma {:induction false} StepKeepsDone(g: Graph, s: Walk, step: Step) returns (k: nat)
    requires Complete(g) && Located(g, s) && Enabled(g, s, step)
    ensures Advanced(s.done, Apply(g, s, step).done, k)
  {
    AdvancesNone(s.done, []);
    assert s.done + [] == s.done;
    k := 0;
    match step
    case Pull(_) => if s.done != [] { AdvancesOne(s.done); k := 1; }
    case WorkerPut(i) => AdvancesNone(s.done, [s.workers[i].node]);
    case _ =>
  }

  lemma {:induction false} StepKeepsStack(g: Graph, s: Walk, step: Step) returns (m: nat)
    requires Complete(g) && Inv(g, s) && Enabled(g, s, step)
    ensures Lowered(s.ready.queue, Apply(g, s, step).ready.queue, m)
  {
    var q := s.ready.queue;
    AdvancesNone(q, []);
    assert q + [] == q;
    m := |q|;
    match step
    case Push(now) =>
      if q != [] && s.limiter.Grants(now) {
        AdvancesOne(q);
        m := |q| - 1;
      }
    case Pull(released) => if s.done != [] { AdvancesNone(q, released); }
    case _ =>
  }

  /** What has left a place does not come back. */
  lemma LeftForGood(g: Graph, s: Walk, t: Walk, n: Node)
    requires Located(g, s) && Located(g, t) && NoneGoesBack(s.place, t.place) && n in g
    ensures Rank(s.place[n]) > 1 ==> n !in t.ready.queue
    ensures Rank(s.place[n]) > 2 ==> n !in t.tasks
    ensures Rank(s.place[n]) > 4 ==> n !in t.done
  {
  }

  /** The two queues between the main thread and the workers are first in, first out: over every run
      nodes leave them at the front, in the order in which they came. */
  lemma {:induction false} QueuesKeepOrder(g: Graph, s: Walk, steps: seq<Step>, t: Walk) returns (m: nat, k: nat)
    requires Complete(g) && Inv(g, s) && Leads(g, s, steps, t)
    ensures Advanced(s.tasks, t.tasks, m) && Advanced(s.done, t.done, k)
    decreases |steps|
  {
    if steps == [] {
      AdvancesNone(s.tasks, []);
      AdvancesNone(s.done, []);
      assert s.tasks + [] == s.tasks && s.done + [] == s.done;
      m, k := 0, 0;
    } else {
      var u := Apply(g, s, steps[0]);
      var m1 := StepKeepsTasks(g, s, steps[0]);
      var k1 := StepKeepsDone(g, s, steps[0]);
      StepKeepsInv(g, s, steps[0]);
      StepMovesOn(g, s, steps[0]);
      var m2, k2 := QueuesKeepOrder(g, u, steps[1..], t);
      RunMovesOn(g, u, steps[1..], t);
      forall i | 0 <= i < m1 ensures s.tasks[i] !in t.tasks {
        TakenStaysAway(g, s, u, t, s.tasks[i]);
      }
      forall i | 0 <= i < k1 ensures s.done[i] !in t.done {
        PulledStaysAway(g, s, u, t, s.done[i]);
      }
      m := AdvancedTwice(s.tasks, u.tasks, t.tasks, m1, m2);
      k := AdvancedTwice(s.done, u.done, t.done, k1, k2);
    }
  }

  lemma TakenStaysAway(g: Graph, s: Walk, u: Walk, t: Walk, n: Node)
    requires Located(g, s) && Located(g, u) && Located(g, t)
    requires NoneGoesBack(s.place, u.place) && NoneGoesBack(u.place, t.place)
    requires n in s.tasks && n !in u.tasks
    ensures n !in t.tasks
  {
    LeftForGood(g, u, t, n);
  }

  lemma PulledStaysAway(g: Graph, s: Walk, u: Walk, t: Walk, n: Node)
    requires Located(g, s) && Located(g, u) && Located(g, t)
    requires NoneGoesBack(s.place, u.place) && NoneGoesBack(u.place, t.place)
    requires n in s.done && n !in u.done
    ensures n !in t.done
  {
    LeftForGood(g, u, t, n);
  }

  lemma PushedStaysAway(g: Graph, s: Walk, u: Walk, t: Walk, n: Node)
    requires Located(g, s) && Located(g, u) && Located(g, t)
    requires NoneGoesBack(s.place, u.place) && NoneGoesBack(u.place, t.place)
    requires n in s.ready.queue && n !in u.ready.queue
    ensures n !in t.ready.queue
  {
    LeftForGood(g, u, t, n);
  }

  /** The queue of released nodes is a stack: over every run a node leaves it only after all nodes that
      were released later and are still there. */
  lemma {:induction false} ReadyIsAStack(g: Graph, s: Walk, steps: seq<Step>, t: Walk) returns (m: nat)
    requires Complete(g) && Inv(g, s) && Leads(g, s, steps, t)
    ensures Lowered(s.ready.queue, t.ready.queue, m)
    decreases |steps|
  {
    if steps == [] {
      AdvancesNone(s.ready.queue, []);
      assert s.ready.queue + [] == s.ready.queue;
      m := |s.ready.queue|;
    } else {
      var u := Apply(g, s, steps[0]);
      var m1 := StepKeepsStack(g, s, steps[0]);
      StepKeepsInv(g, s, steps[0]);
      StepMovesOn(g, s, steps[0]);
      var m2 := ReadyIsAStack(g, u, steps[1..], t);
      RunMovesOn(g, u, steps[1..], t);
      forall i | m1 <= i < |s.ready.queue| ensures s.ready.queue[i] !in t.ready.queue {
        PushedStaysAway(g, s, u, t, s.ready.queue[i]);
      }
      m := LoweredTwice(s.ready.queue, u.ready.queue, t.ready.queue, m1, m2);
    }
  }

  // ----- after shutdown -----

  /** How many calls of `f` by this worker are in the log. */
  function StartsBy(log: seq<Event>, worker: nat): nat {
    if log == [] then 0
    else
      var last := log[|log| - 1];
      StartsBy(log[..|log| - 1], worker) + if last.Began? && last.worker == worker then 1 else 0
  }

  lemma StartsGain(log: seq<Event>, e: Event, worker: nat)
    ensures StartsBy(log + [e], worker) == StartsBy(log, worker) + if e.Began? && e.worker == worker then 1 else 0
  {
    assert (log + [e])[..|log|] == log;
  }

  /** Worker `i` changes from `w` to `v`, and the log gains `more`. */
  ghost predicate CapHolds(log: seq<Event>, w: Worker, now: seq<Event>, v: Worker, worker: nat) {
    StartsBy(now, worker) + LateCap(true, w) <= StartsBy(log, worker) + LateCap(true, v)
  }

  lemma WorkerStartsFew(s: Walk, i: nat, v: Worker, log: seq<Event>, worker: nat)
    requires i < |s.workers| && worker < |s.workers|
    requires if worker == i then CapHolds(s.log, s.workers[i], log, v, worker)
      else StartsBy(log, worker) == StartsBy(s.log, worker)
    ensures CapHolds(s.log, s.workers[worker], log, s.workers[i := v][worker], worker)
  {
  }

  lemma {:induction false} StepStartsFew(g: Graph, s: Walk, step: Step, worker: nat)
    requires s.shutdown && Enabled(g, s, step) && worker < |s.workers|
    ensures
      var t := Apply(g, s, step);
      && t.shutdown && |t.workers| == |s.workers|
      && CapHolds(s.log, s.workers[worker], t.log, t.workers[worker], worker)
  {
    match step
    case WorkerStart(i) =>
      var e := Began(i, s.workers[i].node, s.shutdown);
      StartsGain(s.log, e, worker);
      WorkerStartsFew(s, i, Running(s.workers[i].node), s.log + [e], worker);
    case WorkerReturn(i) =>
      var e := Ended(s.workers[i].node);
      StartsGain(s.log, e, worker);
      WorkerStartsFew(s, i, Returned(s.workers[i].node), s.log + [e], worker);
    case WorkerFail(i) =>
      var e := Failed(s.workers[i].node);
      StartsGain(s.log, e, worker);
      WorkerStartsFew(s, i, Failing(s.workers[i].node), s.log + [e], worker);
    case _ =>
  }

  /** Once `shutdown` is set every worker calls `f` at most once more, in any run from there. */
  lemma {:induction false} FewStartsAfterShutdown(g: Graph, s: Walk, steps: seq<Step>, t: Walk, worker: nat)
    requires s.shutdown && Leads(g, s, steps, t) && worker < |s.workers|
    ensures |t.workers| == |s.workers|
    ensures CapHolds(s.log, s.workers[worker], t.log, t.workers[worker], worker)
    ensures StartsBy(t.log, worker) <= StartsBy(s.log, worker) + 1
    decreases |steps|
  {
    if steps != [] {
      StepStartsFew(g, s, steps[0], worker);
      FewStartsAfterShutdown(g, Apply(g, s, steps[0]), steps[1..], t, worker);
    }
  }
}
