/** What one pass of a loop over a registry achieves while all other threads go on. */
module RegistryPasses {
  import opened Runs
  import opened Registry
  import opened RegistryInvariant
  import opened RegistryRuns

  /** The step works on the vector or its lock. */
  predicate Touches(step: Step, v: Vector) {
    match step
    case ByPython(p) => p.Register? && v == All
    case ByImporter(_) => false
    case ByLoop(l) =>
      match l
      case StartFlushing => true
      case FlushTake => true
      case Extend => v == Orphaned
      case StartCleaning(w) => w == v
      case CleanCheck(w) => w == v
      case CleanDrop(w) => w == v
      case CleanJoined(w) => w == v
      case _ => v == All
  }

  ghost predicate SameVector(b: Bridge, c: Bridge, v: Vector) {
    ListOf(c, v) == ListOf(b, v) && LockOf(c, v) == LockOf(b, v)
  }

  lemma LightLeavesVectors(b: Bridge, step: PythonStep, v: Vector)
    requires PythonMay(b, step) && !Drops(step) && !Touches(ByPython(step), v)
    ensures SameVector(b, AfterPython(b, step), v)
  {
  }

  lemma PythonLeavesVectors(b: Bridge, step: PythonStep, v: Vector)
    requires Inv(b) && PythonMay(b, step) && !Touches(ByPython(step), v)
    ensures SameVector(b, AfterPython(b, step), v)
  {
    if Drops(step) { DroppingIs(b, step); } else { LightLeavesVectors(b, step, v); }
  }

  lemma DowngradeLeavesVectors(b: Bridge, r: Recording, v: Vector)
    requires Inv(b) && r in b.importers.transient
    ensures SameVector(b, AfterImporter(b, Downgrade(r)), v)
  {
    DowngradeFrees(b, r);
  }

  lemma ImporterLeavesVectors(b: Bridge, step: ImporterStep, v: Vector)
    requires Inv(b) && ImporterMay(b, step)
    ensures SameVector(b, AfterImporter(b, step), v)
  {
    if step.Downgrade? { DowngradeLeavesVectors(b, step.r, v); }
  }

  lemma {:induction false} LoopLeavesOthers(b: Bridge, step: LoopStep, v: Vector)
    requires Inv(b) && LoopMay(b, step) && !Touches(ByLoop(step), v)
    ensures SameVector(b, AfterLoop(b, step), v)
  {
    match step
    case ShutdownTake => LoopTakes(b, step);
    case DisconnectTake => LoopTakes(b, step);
    case CleanCheck(w) => CleanCheckIs(b, w);
    case CleanDrop(w) => CleaningTakes(b, step);
    case CleanJoined(w) => CleaningTakes(b, step);
    case _ =>
  }

  lemma {:induction false} StepLeavesVector(b: Bridge, step: Step, v: Vector)
    requires Inv(b) && Enabled(b, step) && !Touches(step, v)
    ensures SameVector(b, Apply(b, step), v)
  {
    match step
    case ByPython(p) => PythonLeavesVectors(b, p, v);
    case ByImporter(i) => ImporterLeavesVectors(b, i, v);
    case ByLoop(l) => LoopLeavesOthers(b, l, v);
  }

  /** The loop has not come past `r` yet. */
  ghost predicate Ahead(s: seq<Recording>, next: nat, r: Recording) {
    next <= |s| && r !in s[..next]
  }

  lemma AheadNext(s: seq<Recording>, next: nat, r: Recording)
    requires Ahead(s, next, r) && next < |s| && s[next] != r
    ensures Ahead(s, next + 1, r) && Ahead(Without(s, next), next, r)
  {
    assert s[..next + 1] == s[..next] + [s[next]];
    assert Without(s, next)[..next] == s[..next];
  }

  // ----- disconnect_orphaned_recordings -----

  predicate Disconnects(lock: Lock) {
    lock.Disconnecting? || lock.Condemned? || lock.MoveJoining?
  }

  /** `r` has left ALL_RECORDINGS, or the disconnecting loop is still to come to it. */
  ghost predicate BeingMoved(b: Bridge, r: Recording) {
    var o := OwnerOf(b, r);
    || o == Moving || o == InOrphaned || o == Gone
    || (o == InAll && Disconnects(b.allLock) && Ahead(b.all, b.allLock.next, r))
  }

  lemma CheckKeepsBeingMoved(b: Bridge, r: Recording)
    requires Inv(b) && LoopMay(b, DisconnectCheck) && Unreached(b, r) && BeingMoved(b, r)
    ensures BeingMoved(AfterLoop(b, DisconnectCheck), r)
  {
    var i := b.allLock.next;
    if OwnerOf(b, r) == InAll {
      assert r in b.all;
      NotRunning(b, r);
      LastReference(b, r);
      if i < |b.all| && b.all[i] != r { AheadNext(b.all, i, r); }
    }
  }

  lemma MoveKeepsBeingMoved(b: Bridge, r: Recording)
    requires Inv(b) && LoopMay(b, DisconnectMove) && BeingMoved(b, r)
    ensures BeingMoved(AfterLoop(b, DisconnectMove), r)
  {
    var i := b.allLock.next;
    if b.all[i] != r && OwnerOf(b, r) == InAll { AheadNext(b.all, i, r); }
  }

  lemma TakeKeepsBeingMoved(b: Bridge, r: Recording)
    requires LoopMay(b, DisconnectTake) && BeingMoved(b, r)
    ensures BeingMoved(AfterLoop(b, DisconnectTake), r)
  {
  }

  lemma {:induction false} StepKeepsBeingMoved(b: Bridge, step: Step, r: Recording)
    requires Inv(b) && Enabled(b, step) && Unreached(b, r) && BeingMoved(b, r)
    ensures BeingMoved(Apply(b, step), r)
  {
    if step == ByLoop(DisconnectCheck) {
      CheckKeepsBeingMoved(b, r);
    } else if step == ByLoop(DisconnectTake) {
      TakeKeepsBeingMoved(b, r);
    } else if step == ByLoop(DisconnectMove) {
      MoveKeepsBeingMoved(b, r);
    } else {
      OtherStepKeepsBeingMoved(b, step, r);
    }
  }

  lemma {:induction false} OtherStepKeepsBeingMoved(b: Bridge, step: Step, r: Recording)
    requires Inv(b) && Enabled(b, step) && Unreached(b, r) && BeingMoved(b, r)
    requires step != ByLoop(DisconnectCheck) && step != ByLoop(DisconnectTake) && step != ByLoop(DisconnectMove)
    ensures BeingMoved(Apply(b, step), r)
  {
    OwnerAfterStep(b, step, r);
    NotRunning(b, r);
    if OwnerOf(b, r) == InAll {
      OwnerStays(b, step, r);
      StepLeavesVector(b, step, All);
    }
  }

  /** While the disconnecting loop holds the lock, no other step touches the vector. */
  lemma OwnerStays(b: Bridge, step: Step, r: Recording)
    requires Inv(b) && Enabled(b, step) && Disconnects(b.allLock) && OwnerOf(b, r) == InAll
    requires step != ByLoop(DisconnectCheck) && step != ByLoop(DisconnectTake) && step != ByLoop(DisconnectMove)
    ensures !Touches(step, All) && OwnerAfter(b, step, r) == InAll
  {
    if step.ByLoop? && step.l.Extend? { assert b.moving[0] in b.moving; }
    if step.ByLoop? && (step.l.CleanDrop? || step.l.CleanJoined?) {
      ListedHasOwner(b, step.l.v, LockOf(b, step.l.v).next);
    }
  }

  lemma {:induction false} RunKeepsBeingMoved(b: Bridge, steps: seq<Step>, c: Bridge, r: Recording)
    requires Inv(b) && Leads(Next, b, steps, c) && OwnerOf(b, r) != Unborn && Unreached(b, r) && BeingMoved(b, r)
    ensures Inv(c) && BeingMoved(c, r)
    decreases |steps|
  {
    if steps != [] {
      StepKeepsInv(b, steps[0]);
      StepKeepsUnreached(b, steps[0], r);
      StepKeepsBeingMoved(b, steps[0], r);
      OwnerAfterStep(b, steps[0], r);
      RunKeepsBeingMoved(Apply(b, steps[0]), steps[1..], c, r);
    }
  }

  /** `disconnect_orphaned_recordings` with all other threads at work: a recording that nobody holds
      and no importer writes to when the loop starts is out of ALL_RECORDINGS when it ends, and was
      disconnected before it became an orphan. What Python reaches at the end is still there. */
  lemma {:induction false} UnheldIsDisconnected(b: Bridge, steps: seq<Step>, c: Bridge, r: Recording)
    requires Inv(b) && b.allLock == Disconnecting(0)
    requires r in b.all && RefCount(b, r) == 1 && Running(b.importers, r) == 0
    requires Leads(Next, b, steps, c) && c.allLock == Free
    ensures r !in c.all && (r in c.moving || r in c.orphaned || r in c.freed)
    ensures r in c.moving || r in c.orphaned ==> r in c.disconnected
  {
    LastReference(b, r);
    RunKeepsBeingMoved(b, steps, c, r);
  }

  // ----- shutdown -----

  /** `r` is disconnected, or the loop of `shutdown` is still to come to it. */
  ghost predicate BeingShutDown(b: Bridge, r: Recording) {
    || r in b.disconnected
    || ((b.allLock.ShuttingDown? || b.allLock.ShutdownJoining?) && OwnerOf(b, r) == InAll
        && Ahead(b.all, b.allLock.next, r))
  }

  /** Only a new sink ends a disconnection. */
  lemma {:induction false} DisconnectedStays(b: Bridge, step: Step, r: Recording)
    requires Inv(b) && Enabled(b, step) && r in b.disconnected && step != ByPython(SetSink(r))
    ensures r in Apply(b, step).disconnected
  {
    match step
    case ByPython(p) => if Drops(p) { DroppingIs(b, p); }
    case ByImporter(i) => if i.Downgrade? { DowngradeFrees(b, i.r); }
    case ByLoop(l) => LoopKeepsDisconnected(b, l, r);
  }

  lemma {:induction false} LoopKeepsDisconnected(b: Bridge, step: LoopStep, r: Recording)
    requires Inv(b) && LoopMay(b, step) && r in b.disconnected
    ensures r in AfterLoop(b, step).disconnected
  {
    if step.CleanDrop? || step.CleanJoined? {
      ChosenStaysAlone(b, step.v);
      TakenOutTakesOut(b, step.v, LockOf(b, step.v).next);
      if step.CleanDrop? { CleanDropIs(b, step.v); }
    } else if step.CleanCheck? {
      CleanCheckIs(b, step.v);
    }
  }

  lemma ShutdownNextKeeps(b: Bridge, r: Recording)
    requires Inv(b) && LoopMay(b, ShutdownNext) && BeingShutDown(b, r)
    ensures BeingShutDown(AfterLoop(b, ShutdownNext), r)
  {
    if b.all[b.allLock.next] != r && r !in b.disconnected { AheadNext(b.all, b.allLock.next, r); }
  }

  lemma ShutdownTakeKeeps(b: Bridge, r: Recording)
    requires Inv(b) && LoopMay(b, ShutdownTake) && BeingShutDown(b, r)
    ensures BeingShutDown(AfterLoop(b, ShutdownTake), r)
  {
    if r !in b.disconnected { assert r in b.all; }
  }

  /** While the loop of `shutdown` holds the lock, no other step touches the vector. */
  lemma ShutdownOwnerStays(b: Bridge, step: Step, r: Recording)
    requires Inv(b) && Enabled(b, step) && (b.allLock.ShuttingDown? || b.allLock.ShutdownJoining?)
    requires step != ByLoop(ShutdownTake) && step != ByLoop(ShutdownNext) && OwnerOf(b, r) == InAll
    ensures !Touches(step, All) && OwnerAfter(b, step, r) == InAll
  {
    if step.ByLoop? && step.l.Extend? { assert b.moving[0] in b.moving; }
    if step.ByLoop? && (step.l.CleanDrop? || step.l.CleanJoined?) {
      ListedHasOwner(b, step.l.v, LockOf(b, step.l.v).next);
    }
  }

  lemma {:induction false} StepKeepsBeingShutDown(b: Bridge, step: Step, r: Recording)
    requires Inv(b) && Enabled(b, step) && BeingShutDown(b, r) && step != ByPython(SetSink(r))
    ensures BeingShutDown(Apply(b, step), r)
  {
    if r in b.disconnected {
      DisconnectedStays(b, step, r);
    } else if step == ByLoop(ShutdownTake) {
      ShutdownTakeKeeps(b, r);
    } else if step == ByLoop(ShutdownNext) {
      ShutdownNextKeeps(b, r);
    } else {
      ShutdownOwnerStays(b, step, r);
      StepLeavesVector(b, step, All);
      OwnerAfterStep(b, step, r);
    }
  }

  lemma {:induction false} RunKeepsBeingShutDown(b: Bridge, steps: seq<Step>, c: Bridge, r: Recording)
    requires Inv(b) && BeingShutDown(b, r) && Leads(Next, b, steps, c) && ByPython(SetSink(r)) !in steps
    ensures Inv(c) && BeingShutDown(c, r) && (r in b.disconnected ==> r in c.disconnected)
    decreases |steps|
  {
    if steps != [] {
      StepKeepsInv(b, steps[0]);
      StepKeepsBeingShutDown(b, steps[0], r);
      if r in b.disconnected { DisconnectedStays(b, steps[0], r); }
      RunKeepsBeingShutDown(Apply(b, steps[0]), steps[1..], c, r);
    }
  }

  /** `shutdown` with all other threads at work: what is in ALL_RECORDINGS when its loop begins is
      disconnected when it ends, unless Python has set a new sink in the meantime. */
  lemma {:induction false} ShutdownDisconnects(b: Bridge, steps: seq<Step>, c: Bridge, r: Recording)
    requires Inv(b) && b.allLock == ShuttingDown(0) && r in b.all
    requires Leads(Next, b, steps, c) && ByPython(SetSink(r)) !in steps && c.allLock == Free
    ensures r in c.disconnected
  {
    RunKeepsBeingShutDown(b, steps, c, r);
  }

  /** Once Python has disconnected a recording it stays so until Python sets a new sink. */
  lemma {:induction false} DisconnectLasts(b: Bridge, steps: seq<Step>, c: Bridge, r: Recording)
    requires Inv(b) && PythonMay(b, Disconnect(r)) && Leads(Next, AfterPython(b, Disconnect(r)), steps, c)
    requires ByPython(SetSink(r)) !in steps
    ensures r in c.disconnected
  {
    PythonKeepsInv(b, Disconnect(r));
    RunKeepsBeingShutDown(AfterPython(b, Disconnect(r)), steps, c, r);
  }

  // ----- flush_and_cleanup_orphaned_recordings -----

  function Home(v: Vector): Owner {
    if v == All then InAll else InOrphaned
  }

  predicate Cleans(lock: Lock) {
    lock.Cleaning? || lock.Removing? || lock.DropJoining?
  }

  /** `r` is freed, or the cleaning loop is still to come to it. */
  ghost predicate BeingFreed(b: Bridge, v: Vector, r: Recording) {
    || OwnerOf(b, r) == Gone
    || (OwnerOf(b, r) == Home(v) && Cleans(LockOf(b, v)) && Ahead(ListOf(b, v), LockOf(b, v).next, r))
  }

  predicate OwnStep(step: Step, v: Vector) {
    step == ByLoop(CleanCheck(v)) || step == ByLoop(CleanDrop(v)) || step == ByLoop(CleanJoined(v))
  }

  lemma HomeIsListed(b: Bridge, v: Vector, r: Recording)
    requires Inv(b) && OwnerOf(b, r) == Home(v)
    ensures r in ListOf(b, v)
  {
  }

  /** The check comes to `r` and chooses it, or moves on. */
  lemma CheckedAhead(b: Bridge, v: Vector, r: Recording)
    requires Inv(b) && LockOf(b, v).Cleaning? && Unreached(b, r) && OwnerOf(b, r) == Home(v)
    requires Ahead(ListOf(b, v), LockOf(b, v).next, r)
    ensures Cleans(CheckedLock(b, v)) && Ahead(ListOf(b, v), CheckedLock(b, v).next, r)
  {
    var i := LockOf(b, v).next;
    HomeIsListed(b, v, r);
    NotRunning(b, r);
    LastReference(b, r);
    if i < |ListOf(b, v)| && ListOf(b, v)[i] != r { AheadNext(ListOf(b, v), i, r); }
  }

  lemma CleanCheckKeepsBeingFreed(b: Bridge, v: Vector, r: Recording)
    requires Inv(b) && LoopMay(b, CleanCheck(v)) && Unreached(b, r) && BeingFreed(b, v, r)
    ensures BeingFreed(AfterLoop(b, CleanCheck(v)), v, r)
  {
    CleanCheckIs(b, v);
    if OwnerOf(b, r) == Home(v) { CheckedAhead(b, v, r); }
  }

  lemma CleanDropKeepsBeingFreed(b: Bridge, v: Vector, r: Recording)
    requires Inv(b) && LoopMay(b, CleanDrop(v)) && Unreached(b, r) && BeingFreed(b, v, r)
    ensures BeingFreed(AfterLoop(b, CleanDrop(v)), v, r)
  {
    var i := LockOf(b, v).next;
    CleanDropIs(b, v);
    ChosenStaysAlone(b, v);
    NotRunning(b, r);
    LoopOwner(b, CleanDrop(v), r);
    if OwnerOf(b, r) == Home(v) {
      LastReference(b, r);
      if ListOf(b, v)[i] != r { AheadNext(ListOf(b, v), i, r); }
      TakenOutTakesOut(b, v, i);
    }
  }

  lemma CleanJoinedKeepsBeingFreed(b: Bridge, v: Vector, r: Recording)
    requires Inv(b) && LoopMay(b, CleanJoined(v)) && BeingFreed(b, v, r)
    ensures BeingFreed(AfterLoop(b, CleanJoined(v)), v, r)
  {
    var i := LockOf(b, v).next;
    JoinedIsDone(b, v);
    LoopOwner(b, CleanJoined(v), r);
    if OwnerOf(b, r) == Home(v) && ListOf(b, v)[i] != r {
      AheadNext(ListOf(b, v), i, r);
      TakenOutTakesOut(b, v, i);
    }
  }

  /** While a cleaning loop holds the lock, no other step touches the vector. */
  lemma CleanedOwnerStays(b: Bridge, step: Step, v: Vector, r: Recording)
    requires Inv(b) && Enabled(b, step) && Cleans(LockOf(b, v)) && !OwnStep(step, v) && OwnerOf(b, r) == Home(v)
    ensures !Touches(step, v) && OwnerAfter(b, step, r) == Home(v)
  {
    if step.ByLoop? {
      match step.l
      case Extend => assert b.moving[0] in b.moving;
      case CleanDrop(w) => ListedHasOwner(b, w, LockOf(b, w).next);
      case CleanJoined(w) => ListedHasOwner(b, w, LockOf(b, w).next);
      case _ =>
    }
  }

  lemma {:induction false} StepKeepsBeingFreed(b: Bridge, step: Step, v: Vector, r: Recording)
    requires Inv(b) && Enabled(b, step) && Unreached(b, r) && BeingFreed(b, v, r)
    ensures BeingFreed(Apply(b, step), v, r)
  {
    if step == ByLoop(CleanCheck(v)) {
      CleanCheckKeepsBeingFreed(b, v, r);
    } else if step == ByLoop(CleanDrop(v)) {
      CleanDropKeepsBeingFreed(b, v, r);
    } else if step == ByLoop(CleanJoined(v)) {
      CleanJoinedKeepsBeingFreed(b, v, r);
    } else {
      OwnerAfterStep(b, step, r);
      if OwnerOf(b, r) == Home(v) {
        CleanedOwnerStays(b, step, v, r);
        StepLeavesVector(b, step, v);
      } else {
        GoneStaysGone(b, step, r);
      }
    }
  }

  lemma GoneStaysGone(b: Bridge, step: Step, r: Recording)
    requires Inv(b) && Enabled(b, step) && OwnerOf(b, r) == Gone
    ensures OwnerAfter(b, step, r) == Gone
  {
    match step
    case ByPython(_) =>
    case ByImporter(_) =>
    case ByLoop(l) =>
      match l
      case DisconnectMove => ListedHasOwner(b, All, b.allLock.next);
      case Extend => assert b.moving[0] in b.moving;
      case CleanDrop(w) => ListedHasOwner(b, w, LockOf(b, w).next);
      case CleanJoined(_) =>
      case _ =>
  }

  lemma {:induction false} RunKeepsBeingFreed(b: Bridge, steps: seq<Step>, c: Bridge, v: Vector, r: Recording)
    requires Inv(b) && Leads(Next, b, steps, c) && OwnerOf(b, r) != Unborn && Unreached(b, r) && BeingFreed(b, v, r)
    ensures Inv(c) && BeingFreed(c, v, r)
    decreases |steps|
  {
    if steps != [] {
      StepKeepsInv(b, steps[0]);
      StepKeepsUnreached(b, steps[0], r);
      StepKeepsBeingFreed(b, steps[0], v, r);
      RunKeepsBeingFreed(Apply(b, steps[0]), steps[1..], c, v, r);
    }
  }

  /** A cleaning loop with all other threads at work: a recording that nobody holds and no importer
      writes to when the loop starts is freed when it ends. */
  lemma {:induction false} UnheldIsFreed(b: Bridge, v: Vector, steps: seq<Step>, c: Bridge, r: Recording)
    requires Inv(b) && LockOf(b, v) == Cleaning(0)
    requires r in ListOf(b, v) && RefCount(b, r) == 1 && Running(b.importers, r) == 0
    requires Leads(Next, b, steps, c) && LockOf(c, v) == Free
    ensures r in c.freed && RefCount(c, r) == 0
  {
    LastReference(b, r);
    RunKeepsBeingFreed(b, steps, c, v, r);
    FreedIsUnheld(c, r);
  }

  /** A cleaning loop over ORPHANED_RECORDINGS with all other threads at work frees every orphan that
      is there when it begins. */
  lemma {:induction false} EveryOrphanIsFreed(b: Bridge, steps: seq<Step>, c: Bridge, r: Recording)
    requires Inv(b) && b.orphanedLock == Cleaning(0) && r in b.orphaned
    requires Leads(Next, b, steps, c) && c.orphanedLock == Free
    ensures r in c.freed && RefCount(c, r) == 0
  {
    OrphanIsDone(b, r);
    UnheldIsFreed(b, Orphaned, steps, c, r);
  }
}
