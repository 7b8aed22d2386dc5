/** What the flush loop of `flush_and_cleanup_orphaned_recordings` achieves while all other threads
    go on: it joins the importers of whatever Python has given up before the loop comes to it. */
module RegistryFlush {
  import opened Runs
  import opened Registry
  import opened RegistryInvariant
  import opened RegistryRuns
  import opened RegistryPasses

  /** The flush loop is still to come to `r`, or joins the importers of `r` right now. */
  ghost predicate FlushAhead(b: Bridge, r: Recording) {
    && (b.allLock.Flushing? || b.allLock.FlushJoining?)
    && OwnerOf(b, r) == InAll && Ahead(b.all, b.allLock.next, r)
    && (b.allLock.FlushJoining? && b.allLock.next < |b.all| && b.all[b.allLock.next] == r ==> r !in b.importers.listed)
  }

  /** Python has given up `r`, and no importer of it runs, or the flush loop joins those that do. */
  ghost predicate BeingJoined(b: Bridge, r: Recording) {
    && OwnerOf(b, r) != Unborn && OwnerOf(b, r) != Adrift && !Reachable(b, r)
    && (Running(b.importers, r) == 0 || FlushAhead(b, r))
  }

  /** Nobody waits for the importers of what Python does not hold. */
  lemma NobodyWaits(b: Bridge, r: Recording)
    requires Inv(b) && Alone(b, r)
    ensures r !in b.python.waiters && r !in b.importers.awaited
  {
    assert b.python.waiters[r] <= b.python.handles[r];
  }

  lemma AheadInList(b: Bridge, r: Recording)
    requires Inv(b) && FlushAhead(b, r)
    ensures b.allLock.next < |b.all|
  {
    assert r in b.all;
  }

  lemma TakeKeepsAhead(b: Bridge, r: Recording)
    requires Inv(b) && LoopMay(b, FlushTake) && FlushAhead(b, r)
    ensures FlushAhead(AfterLoop(b, FlushTake), r)
  {
    AheadInList(b, r);
  }

  lemma NextJoins(b: Bridge, r: Recording)
    requires Inv(b) && LoopMay(b, FlushNext) && FlushAhead(b, r) && Alone(b, r)
    ensures Running(b.importers, r) == 0 || FlushAhead(AfterLoop(b, FlushNext), r)
  {
    AheadInList(b, r);
    NobodyWaits(b, r);
    if b.all[b.allLock.next] != r { AheadNext(b.all, b.allLock.next, r); }
  }

  predicate FlushStep(step: Step) {
    step == ByLoop(FlushTake) || step == ByLoop(FlushNext)
  }

  /** While the flush loop holds the locks, no other step touches the vector. */
  lemma FlushedOwnerStays(b: Bridge, step: Step, r: Recording)
    requires Inv(b) && Enabled(b, step) && !FlushStep(step) && FlushAhead(b, r)
    ensures !Touches(step, All) && OwnerAfter(b, step, r) == InAll && !step.ByLoop?
  {
  }

  lemma LightListsNothing(b: Bridge, step: PythonStep, r: Recording)
    requires PythonMay(b, step) && !Drops(step) && Alone(b, r) && r !in b.importers.listed
    ensures r !in AfterPython(b, step).importers.listed
  {
    if step.StartWaiting? { ListsMove(b.importers, step.r); }
  }

  lemma ListsNothing(b: Bridge, step: Step, r: Recording)
    requires Inv(b) && Enabled(b, step) && !step.ByLoop? && Alone(b, r) && r !in b.importers.listed
    ensures r !in Apply(b, step).importers.listed
  {
    match step
    case ByPython(p) => if Drops(p) { DroppingIs(b, p); } else { LightListsNothing(b, p, r); }
    case ByImporter(i) => if i.Downgrade? { DowngradeFrees(b, i.r); }
  }

  lemma {:induction false} OtherStepKeepsAhead(b: Bridge, step: Step, r: Recording)
    requires Inv(b) && Enabled(b, step) && !FlushStep(step) && FlushAhead(b, r) && Alone(b, r)
    ensures FlushAhead(Apply(b, step), r)
  {
    FlushedOwnerStays(b, step, r);
    StepLeavesVector(b, step, All);
    OwnerAfterStep(b, step, r);
    if r !in b.importers.listed { ListsNothing(b, step, r); }
  }

  lemma {:induction false} StepKeepsGivenUp(b: Bridge, step: Step, r: Recording)
    requires Inv(b) && Enabled(b, step) && OwnerOf(b, r) != Unborn && !Reachable(b, r)
    ensures !Reachable(Apply(b, step), r)
  {
    match step
    case ByPython(p) => PythonKeepsGivenUp(b, p, r);
    case ByImporter(i) => if i.Downgrade? { DowngradeFrees(b, i.r); }
    case ByLoop(l) => LoopLeavesPython(b, l);
  }

  lemma {:induction false} StepKeepsBeingJoined(b: Bridge, step: Step, r: Recording)
    requires Inv(b) && Enabled(b, step) && BeingJoined(b, r)
    ensures BeingJoined(Apply(b, step), r)
  {
    StepKeepsGivenUp(b, step, r);
    OwnerAfterStep(b, step, r);
    if Running(b.importers, r) == 0 {
      NotRunning(b, r);
      StepKeepsUnreached(b, step, r);
    } else {
      StepKeepsAhead(b, step, r);
    }
  }

  lemma {:induction false} StepKeepsAhead(b: Bridge, step: Step, r: Recording)
    requires Inv(b) && Enabled(b, step) && FlushAhead(b, r) && !Reachable(b, r)
    ensures Running(Apply(b, step).importers, r) == 0 || FlushAhead(Apply(b, step), r)
    ensures OwnerAfter(b, step, r) == InAll
  {
    if step == ByLoop(FlushTake) {
      TakeKeepsAhead(b, r);
    } else if step == ByLoop(FlushNext) {
      NextJoins(b, r);
    } else {
      OtherStepKeepsAhead(b, step, r);
      FlushedOwnerStays(b, step, r);
    }
  }

  /** A recording that Python has given up before the flush loop comes to it is never lost to one of
      its importers, whatever the other threads do; and once the loop is over none of them runs. */
  lemma {:induction false} GivenUpStaysOwned(b: Bridge, steps: seq<Step>, c: Bridge, r: Recording)
    requires Inv(b) && BeingJoined(b, r) && Leads(Next, b, steps, c)
    ensures Inv(c) && BeingJoined(c, r) && OwnerOf(c, r) != Adrift
    ensures !c.allLock.Flushing? && !c.allLock.FlushJoining? ==> Unreached(c, r)
    decreases |steps|
  {
    if steps != [] {
      StepKeepsInv(b, steps[0]);
      StepKeepsBeingJoined(b, steps[0], r);
      GivenUpStaysOwned(Apply(b, steps[0]), steps[1..], c, r);
    }
  }

  /** `flush_and_cleanup_orphaned_recordings` with all other threads at work: a listed recording that
      Python has given up before the flush loop comes to it is freed when the first cleaning loop is
      over, or has become an orphan. */
  lemma {:induction false} GivenUpIsFreed(
    b: Bridge, flushing: seq<Step>, m: Bridge, cleaning: seq<Step>, c: Bridge, r: Recording)
    requires Inv(b) && b.allLock.Flushing? && r in b.all && b.allLock.next <= |b.all| && r !in b.all[..b.allLock.next]
    requires !Reachable(b, r) && Leads(Next, b, flushing, m) && m.allLock == Cleaning(0)
    requires Leads(Next, m, cleaning, c) && c.allLock == Free
    ensures r in c.freed || ((r in c.moving || r in c.orphaned) && r in c.disconnected)
  {
    GivenUpStaysOwned(b, flushing, m, r);
    if r in m.all {
      NotRunning(m, r);
      LastReference(m, r);
      UnheldIsFreed(m, All, cleaning, c, r);
    } else {
      RunKeepsBeingMoved(m, cleaning, c, r);
    }
  }
}
