/** The recording registry over whole runs: what always holds, which run loses a recording to an
    importer thread, and exactly when that can happen. */
module RegistryRuns {
  import opened Graphs
  import opened Runs
  import opened Registry
  import opened RegistryInvariant

  lemma {:induction false} RunKeepsInv(b: Bridge, steps: seq<Step>, c: Bridge)
    requires Inv(b) && Leads(Next, b, steps, c)
    ensures Inv(c)
    decreases |steps|
  {
    if steps != [] {
      StepKeepsInv(b, steps[0]);
      RunKeepsInv(Apply(b, steps[0]), steps[1..], c);
    }
  }

  /** Whatever the threads do, the bridge holds exactly one reference to a recording that was
      built, is not freed and is not adrift: in a local, a registry, or the vector between them.
      What Python reaches is never given up, what is freed has no reference left, and what is
      adrift is held by importer threads only. */
  lemma {:induction false} OwnedOnceUnlessAdrift(start: Bridge, steps: seq<Step>, b: Bridge, r: Recording)
    requires Init(start) && Leads(Next, start, steps, b)
    ensures Count(b.all, r) + Count(b.orphaned, r) + Count(b.moving, r) + (if r in b.building then 1 else 0)
      == if OwnerOf(b, r) == Unborn || r in b.freed || OwnerOf(b, r) == Adrift then 0 else 1
    ensures Reachable(b, r) ==> r in b.all || r in b.building
    ensures r in b.freed ==> RefCount(b, r) == 0
    ensures OwnerOf(b, r) == Adrift ==> !Reachable(b, r) && r in b.importers.transient
  {
    RunKeepsInv(start, steps, b);
    BridgeHoldsOne(b, r);
    if Reachable(b, r) { ReachableIsLive(b, r); }
    FreedIsUnheld(b, r);
  }

  lemma FreedIsUnheld(b: Bridge, r: Recording)
    requires Inv(b)
    ensures r in b.freed <==> OwnerOf(b, r) == Gone
    ensures r in b.freed ==> RefCount(b, r) == 0
    ensures OwnerOf(b, r) == Adrift ==> !Reachable(b, r) && r in b.importers.transient
  {
    BridgeHoldsOne(b, r);
  }

  lemma OrphanIsDone(b: Bridge, r: Recording)
    requires Inv(b) && (OwnerOf(b, r) == Moving || OwnerOf(b, r) == InOrphaned)
    ensures r in b.disconnected && !Reachable(b, r) && RefCount(b, r) == 1 && Running(b.importers, r) == 0
  {
    OrphansAreAlone(b, r);
    NotRunning(b, r);
    LastReference(b, r);
  }

  /** An orphan was disconnected, no Python object or slot can reach it again, no importer of it runs,
      and its vector holds the only reference. */
  lemma {:induction false} OrphansAreDone(start: Bridge, steps: seq<Step>, b: Bridge, r: Recording)
    requires Init(start) && Leads(Next, start, steps, b) && (r in b.moving || r in b.orphaned)
    ensures r in b.disconnected && !Reachable(b, r) && RefCount(b, r) == 1 && Running(b.importers, r) == 0
  {
    RunKeepsInv(start, steps, b);
    OrphanIsDone(b, r);
  }

  // ----- who owns a recording after a step -----

  function OwnerAfterPython(b: Bridge, step: PythonStep, r: Recording): Owner {
    match step
    case Build(x) => if x == r then Building else OwnerOf(b, r)
    case Register(x) => if x == r then InAll else OwnerOf(b, r)
    case _ => OwnerOf(b, r)
  }

  function OwnerAfterImporter(b: Bridge, step: ImporterStep, r: Recording): Owner {
    if step == Downgrade(r) && OwnerOf(b, r) == Adrift && b.importers.transient[r] == 1 then Gone else OwnerOf(b, r)
  }

  function OwnerAfterLoop(b: Bridge, step: LoopStep, r: Recording): Owner
    requires LoopMay(b, step)
  {
    match step
    case DisconnectMove => if b.all[b.allLock.next] == r then Moving else OwnerOf(b, r)
    case Extend => if b.moving[0] == r then InOrphaned else OwnerOf(b, r)
    case CleanDrop(v) =>
      if ListOf(b, v)[LockOf(b, v).next] == r && r in b.importers.transient then Adrift else OwnerOf(b, r)
    case CleanJoined(v) => if ListOf(b, v)[LockOf(b, v).next] == r then Gone else OwnerOf(b, r)
    case _ => OwnerOf(b, r)
  }

  /** The owner of `r` after a step. */
  function OwnerAfter(b: Bridge, step: Step, r: Recording): Owner
    requires Enabled(b, step)
  {
    match step
    case ByPython(p) => OwnerAfterPython(b, p, r)
    case ByImporter(i) => OwnerAfterImporter(b, i, r)
    case ByLoop(l) => OwnerAfterLoop(b, l, r)
  }

  predicate Drops(step: PythonStep) {
    step.LeaveThread? || step.DropHandle?
  }

  /** Giving up a handle or a slot changes what Python holds and nothing else. */
  lemma DroppingIs(b: Bridge, step: PythonStep)
    requires Inv(b) && PythonMay(b, step) && Drops(step)
    ensures
      var c := AfterPython(b, step);
      && c == b.(python := c.python) && c.python.slots <= b.python.slots && c.python.handles <= b.python.handles
  {
    match step
    case LeaveThread(was) => LeaveThreadIs(b, was);
    case DropHandle(x) => DropHandleIs(b, x);
  }

  lemma LightOwner(b: Bridge, step: PythonStep, r: Recording)
    requires PythonMay(b, step) && !Drops(step)
    ensures OwnerOf(AfterPython(b, step), r) == OwnerAfterPython(b, step, r)
  {
  }

  lemma PythonOwner(b: Bridge, step: PythonStep, r: Recording)
    requires Inv(b) && PythonMay(b, step)
    ensures OwnerOf(AfterPython(b, step), r) == OwnerAfterPython(b, step, r)
  {
    if Drops(step) { DroppingIs(b, step); } else { LightOwner(b, step, r); }
  }

  lemma ImporterOwner(b: Bridge, step: ImporterStep, r: Recording)
    requires Inv(b) && ImporterMay(b, step)
    ensures OwnerOf(AfterImporter(b, step), r) == OwnerAfterImporter(b, step, r)
  {
    if step.Downgrade? { DowngradeFrees(b, step.r); }
  }

  lemma DropOwner(b: Bridge, v: Vector, r: Recording)
    requires Inv(b) && LoopMay(b, CleanDrop(v))
    ensures OwnerOf(AfterLoop(b, CleanDrop(v)), r) == OwnerAfterLoop(b, CleanDrop(v), r)
  {
    var i := LockOf(b, v).next;
    ChosenStaysAlone(b, v);
    CountWithoutVector(b, v, i);
    CleanDropIs(b, v);
    if RefCount(b, ListOf(b, v)[i]) != 1 {
      TakenOutTakesOut(b, v, i);
    }
  }

  /** The element is out of reach and its importers have ended when a loop has joined them. */
  lemma JoinedIsDone(b: Bridge, v: Vector)
    requires Inv(b) && LoopMay(b, CleanJoined(v))
    ensures
      var r := ListOf(b, v)[LockOf(b, v).next];
      Alone(b, r) && Running(b.importers, r) == 0 && r !in b.importers.transient
  {
    if v == All { NoneLeft(b); } else { OrphanAtIsAlone(b, b.orphanedLock.next); }
    NotRunning(b, ListOf(b, v)[LockOf(b, v).next]);
  }

  lemma TakenOutOwner(b: Bridge, v: Vector, i: nat, c: Bridge, r: Recording)
    requires i < |ListOf(b, v)| && TakesOut(b, v, i, c) && ListOf(b, v)[i] !in b.importers.transient
    ensures OwnerOf(c, r) == if ListOf(b, v)[i] == r then Gone else OwnerOf(b, r)
  {
  }

  lemma JoinedOwner(b: Bridge, v: Vector, r: Recording)
    requires Inv(b) && LoopMay(b, CleanJoined(v))
    ensures OwnerOf(AfterLoop(b, CleanJoined(v)), r) == OwnerAfterLoop(b, CleanJoined(v), r)
  {
    var i := LockOf(b, v).next;
    JoinedIsDone(b, v);
    TakenOutTakesOut(b, v, i);
    TakenOutOwner(b, v, i, TakenOut(b, v, i), r);
  }

  lemma {:induction false} LoopOwner(b: Bridge, step: LoopStep, r: Recording)
    requires Inv(b) && LoopMay(b, step)
    ensures OwnerOf(AfterLoop(b, step), r) == OwnerAfterLoop(b, step, r)
  {
    match step
    case CleanCheck(v) => CleanCheckIs(b, v);
    case CleanDrop(v) => DropOwner(b, v, r);
    case CleanJoined(v) => JoinedOwner(b, v, r);
    case _ =>
  }

  lemma {:induction false} OwnerAfterStep(b: Bridge, step: Step, r: Recording)
    requires Inv(b) && Enabled(b, step)
    ensures OwnerOf(Apply(b, step), r) == OwnerAfter(b, step, r)
  {
    match step
    case ByPython(p) => PythonOwner(b, p, r);
    case ByImporter(i) => ImporterOwner(b, i, r);
    case ByLoop(l) => LoopOwner(b, l, r);
  }

  /** `r` is taken out of a vector that held the only reference, with no importer about. */
  ghost predicate JoinsAndFrees(b: Bridge, step: Step, r: Recording) {
    && step.ByLoop? && step.l.CleanJoined? && r in ListOf(b, step.l.v)
    && RefCount(b, r) == 1 && Running(b.importers, r) == 0
  }

  lemma GoneBy(b: Bridge, step: Step, r: Recording)
    requires Inv(b) && Enabled(b, step)
    requires OwnerAfter(b, step, r) == Gone && OwnerOf(b, r) != Gone
    ensures
      if OwnerOf(b, r) == Adrift then step == ByImporter(Downgrade(r)) && b.importers.transient[r] == 1
      else JoinsAndFrees(b, step, r)
  {
    if step.ByLoop? && step.l.CleanJoined? {
      JoinedIsUnheld(b, step.l.v);
    }
  }

  lemma {:induction false} FreedBy(b: Bridge, step: Step, r: Recording)
    requires Inv(b) && Enabled(b, step) && Inv(Apply(b, step))
    requires r in Apply(b, step).freed && r !in b.freed
    ensures OwnerAfter(b, step, r) == Gone && OwnerOf(b, r) != Gone
  {
    FreedIsUnheld(b, r);
    FreedIsUnheld(Apply(b, step), r);
    OwnerAfterStep(b, step, r);
  }

  /** A recording is freed by a cleaning loop when it has no other holder and no importer, or,
      if it is adrift, by the last importer that lets go; in no other way. */
  lemma {:induction false} OnlyCleaningOrTheLastImporterFrees(
    start: Bridge, steps: seq<Step>, b: Bridge, step: Step, r: Recording)
    requires Init(start) && Leads(Next, start, steps, b) && Enabled(b, step)
    requires r in Apply(b, step).freed && r !in b.freed
    ensures !Reachable(b, r)
    ensures
      if OwnerOf(b, r) == Adrift then step == ByImporter(Downgrade(r)) && b.importers.transient[r] == 1
      else JoinsAndFrees(b, step, r)
  {
    RunKeepsInv(start, steps, b);
    StepKeepsInv(b, step);
    FreedBy(b, step, r);
    GoneBy(b, step, r);
    OutOfReach(b, step, r);
  }

  lemma OutOfReach(b: Bridge, step: Step, r: Recording)
    requires Inv(b) && Enabled(b, step)
    requires OwnerOf(b, r) == Adrift || JoinsAndFrees(b, step, r)
    ensures !Reachable(b, r)
  {
    if OwnerOf(b, r) != Adrift {
      HeldInVector(b, step.l.v, r);
    }
  }

  lemma HeldInVector(b: Bridge, v: Vector, r: Recording)
    requires Inv(b) && r in ListOf(b, v) && RefCount(b, r) == 1
    ensures !Reachable(b, r)
  {
    var i :| 0 <= i < |ListOf(b, v)| && ListOf(b, v)[i] == r;
    ListedHasOwner(b, v, i);
    LastReference(b, r);
  }

  lemma JoinedIsUnheld(b: Bridge, v: Vector)
    requires Inv(b) && LoopMay(b, CleanJoined(v))
    ensures
      var r := ListOf(b, v)[LockOf(b, v).next];
      RefCount(b, r) == 1 && !Reachable(b, r) && OwnerOf(b, r) != Adrift && Running(b.importers, r) == 0
  {
    var r := ListOf(b, v)[LockOf(b, v).next];
    ListedHasOwner(b, v, LockOf(b, v).next);
    JoinedIsDone(b, v);
    LastReference(b, r);
  }

  /** The one step that gives up a recording too early: ALL_RECORDINGS drops a reference it had found
      to be the last one, and an importer has upgraded its own in between. */
  lemma {:induction false} AdriftByLateUpgrade(b: Bridge, step: Step, r: Recording)
    requires Inv(b) && Enabled(b, step) && OwnerOf(b, r) != Adrift
    ensures OwnerOf(Apply(b, step), r) == Adrift <==>
      step == ByLoop(CleanDrop(All)) && b.all[b.allLock.next] == r && r in b.importers.transient
  {
    OwnerAfterStep(b, step, r);
    if step == ByLoop(CleanDrop(Orphaned)) {
      OrphanAtIsAlone(b, b.orphanedLock.next);
      NotRunning(b, b.orphaned[b.orphanedLock.next]);
    }
  }

  /** The importers of a recording that is adrift are still among those whose handles it lists: no
      thread waits for them, and dropping the last reference would wait for the thread that drops it. */
  lemma AdriftListsItsImporters(b: Bridge, r: Recording)
    requires Inv(b) && OwnerOf(b, r) == Adrift
    ensures r in b.importers.transient && r in b.importers.listed
    ensures Running(b.importers, r) == b.importers.listed[r]
  {
    assert b.python.waiters[r] <= b.python.handles[r];
    assert b.importers.transient[r] <= Running(b.importers, r);
  }

  // ----- recordings that nobody can get at -----

  /** No Python code reaches `r`, and none of its importers runs. */
  predicate Unreached(b: Bridge, r: Recording) {
    !Reachable(b, r) && Running(b.importers, r) == 0
  }

  lemma SlotKeepsGivenUp(b: Bridge, was: Option<Recording>, to: Option<Recording>, r: Recording)
    requires PythonMay(b, SetSlot(was, to)) && b.python.waiters <= b.python.handles && !Reachable(b, r)
    ensures !Reachable(AfterPython(b, SetSlot(was, to)), r)
  {
    SlotSwap(b.python, was, to, AfterPython(b, SetSlot(was, to)).python);
  }

  lemma LightKeepsGivenUp(b: Bridge, step: PythonStep, r: Recording)
    requires PythonMay(b, step) && OwnerOf(b, r) != Unborn && !Reachable(b, r) && !Drops(step) && !step.SetSlot?
    ensures !Reachable(AfterPython(b, step), r)
  {
  }

  lemma FewerHold(p: Python, q: Python, r: Recording)
    requires q.slots <= p.slots && q.handles <= p.handles && Unheld(p, r)
    ensures Unheld(q, r)
  {
    assert q.slots[r] <= p.slots[r] && q.handles[r] <= p.handles[r];
  }

  lemma DropsKeepGivenUp(b: Bridge, step: PythonStep, r: Recording)
    requires Inv(b) && PythonMay(b, step) && Drops(step) && !Reachable(b, r)
    ensures !Reachable(AfterPython(b, step), r)
  {
    DroppingIs(b, step);
    FewerHold(b.python, AfterPython(b, step).python, r);
  }

  /** Nobody can get at what Python has given up. */
  lemma {:induction false} PythonKeepsGivenUp(b: Bridge, step: PythonStep, r: Recording)
    requires Inv(b) && PythonMay(b, step) && OwnerOf(b, r) != Unborn && !Reachable(b, r)
    ensures !Reachable(AfterPython(b, step), r)
  {
    if Drops(step) {
      DropsKeepGivenUp(b, step, r);
    } else if step.SetSlot? {
      SlotKeepsGivenUp(b, step.was, step.to, r);
    } else {
      LightKeepsGivenUp(b, step, r);
    }
  }

  /** Importers are started for what Python holds only. */
  lemma PythonStartsNone(b: Bridge, step: PythonStep, r: Recording)
    requires Inv(b) && PythonMay(b, step) && Running(b.importers, r) == 0 && Alone(b, r)
    ensures Running(AfterPython(b, step).importers, r) == 0
  {
    if Drops(step) {
      DroppingIs(b, step);
    } else if step.StartWaiting? {
      ListsMove(b.importers, step.r);
    }
  }

  lemma {:induction false} PythonKeepsUnreached(b: Bridge, step: PythonStep, r: Recording)
    requires Inv(b) && PythonMay(b, step)
    requires OwnerOf(b, r) != Unborn && Unreached(b, r)
    ensures Unreached(AfterPython(b, step), r)
  {
    PythonKeepsGivenUp(b, step, r);
    PythonStartsNone(b, step, r);
  }

  lemma {:induction false} ImporterKeepsUnreached(b: Bridge, step: ImporterStep, r: Recording)
    requires Inv(b) && ImporterMay(b, step) && Unreached(b, r)
    ensures Unreached(AfterImporter(b, step), r)
  {
    match step
    case Downgrade(x) => DowngradeFrees(b, x);
    case Upgrade(_) =>
    case _ => EndIs(b.importers, step.r);
  }

  /** A loop step changes nothing that Python has, and lets no importer start or end. */
  lemma LoopTakes(b: Bridge, step: LoopStep)
    requires LoopMay(b, step) && (step.FlushTake? || step.ShutdownTake? || step.DisconnectTake?)
    ensures
      var c := AfterLoop(b, step);
      && c.python == b.python && c.building == b.building && c.all == b.all && c.orphaned == b.orphaned
      && c.orphanedLock == (if c.allLock.Free? && step.FlushTake? then Free else b.orphanedLock)
      && forall r :: Running(c.importers, r) == Running(b.importers, r)
  {
    if step.FlushTake? {
      if b.allLock.next < |b.all| + |b.orphaned| { ListsMove(b.importers, Element(b, b.allLock.next)); }
    } else if b.allLock.next < |b.all| {
      ListsMove(b.importers, b.all[b.allLock.next]);
    }
  }

  /** Taking an element out or joining its importers leaves Python alone and lets no importer start. */
  lemma {:induction false} CleaningTakes(b: Bridge, step: LoopStep)
    requires Inv(b) && LoopMay(b, step) && (step.CleanDrop? || step.CleanJoined?)
    ensures
      var c := AfterLoop(b, step);
      && c.python == b.python && c.building == b.building
      && ListOf(c, Other(step.v)) == ListOf(b, Other(step.v)) && LockOf(c, Other(step.v)) == LockOf(b, Other(step.v))
      && forall r :: Running(c.importers, r) == Running(b.importers, r)
  {
    var i := LockOf(b, step.v).next;
    ChosenStaysAlone(b, step.v);
    TakenOutTakesOut(b, step.v, i);
    ListsMove(b.importers, ListOf(b, step.v)[i]);
    if step.CleanDrop? { CleanDropIs(b, step.v); }
  }

  /** No loop step changes what Python has, or lets an importer start or end. */
  lemma {:induction false} LoopLeavesPython(b: Bridge, step: LoopStep)
    requires Inv(b) && LoopMay(b, step)
    ensures AfterLoop(b, step).python == b.python && AfterLoop(b, step).building == b.building
    ensures forall r :: Running(AfterLoop(b, step).importers, r) == Running(b.importers, r)
  {
    match step
    case FlushTake => LoopTakes(b, step);
    case ShutdownTake => LoopTakes(b, step);
    case DisconnectTake => LoopTakes(b, step);
    case CleanCheck(v) => CleanCheckIs(b, v);
    case CleanDrop(_) => CleaningTakes(b, step);
    case CleanJoined(_) => CleaningTakes(b, step);
    case _ =>
  }

  lemma {:induction false} LoopKeepsUnreached(b: Bridge, step: LoopStep, r: Recording)
    requires Inv(b) && LoopMay(b, step) && Unreached(b, r)
    ensures Unreached(AfterLoop(b, step), r)
  {
    LoopLeavesPython(b, step);
  }

  lemma {:induction false} StepKeepsUnreached(b: Bridge, step: Step, r: Recording)
    requires Inv(b) && Enabled(b, step)
    requires OwnerOf(b, r) != Unborn && Unreached(b, r)
    ensures Unreached(Apply(b, step), r)
  {
    match step
    case ByPython(p) => PythonKeepsUnreached(b, p, r);
    case ByImporter(i) => ImporterKeepsUnreached(b, i, r);
    case ByLoop(l) => LoopKeepsUnreached(b, l, r);
  }

  /** Without an importer a recording out of Python's reach never goes adrift, whatever happens. */
  lemma {:induction false} NeverAdriftWithoutImporter(b: Bridge, steps: seq<Step>, c: Bridge, r: Recording)
    requires Inv(b) && Leads(Next, b, steps, c)
    requires OwnerOf(b, r) != Unborn && OwnerOf(b, r) != Adrift && Unreached(b, r)
    ensures OwnerOf(c, r) != Adrift && OwnerOf(c, r) != Unborn && Unreached(c, r)
    decreases |steps|
  {
    if steps != [] {
      StepKeepsInv(b, steps[0]);
      StepKeepsUnreached(b, steps[0], r);
      OwnerAfterStep(b, steps[0], r);
      NotRunning(b, r);
      NeverAdriftWithoutImporter(Apply(b, steps[0]), steps[1..], c, r);
    }
  }

  /** So no orphan ever goes adrift. */
  lemma {:induction false} OrphansNeverGoAdrift(b: Bridge, steps: seq<Step>, c: Bridge, r: Recording)
    requires Inv(b) && Leads(Next, b, steps, c) && (r in b.moving || r in b.orphaned)
    ensures OwnerOf(c, r) != Adrift && Unreached(c, r)
  {
    OrphansAreAlone(b, r);
    NeverAdriftWithoutImporter(b, steps, c, r);
  }
}
