/** What Python holds and which importers run, added up over whole runs; and what holding a recording
    in a slot, and waiting for importers, is good for. */
module RegistryHoldings {
  import opened Graphs
  import opened Runs
  import opened Registry
  import opened RegistryInvariant
  import opened RegistryRuns

  // ----- what a step means for one recording -----

  /** `x` is put into a slot. */
  predicate FillsSlot(step: Step, x: Recording) {
    step.ByPython? && step.p.SetSlot? && step.p.to == Some(x)
  }

  /** A slot that holds `x` is set anew, or its thread leaves. */
  predicate EmptiesSlot(step: Step, x: Recording) {
    step.ByPython? && ((step.p.SetSlot? && step.p.was == Some(x)) || step.p == LeaveThread(x))
  }

  /** Python gets an object for `x`: a new one, or the one that was in a slot. */
  predicate GainsHandle(step: Step, x: Recording) {
    && step.ByPython?
    && (step.p == Register(x) || step.p == CloneHandle(x) || (step.p.SetSlot? && step.p.was == Some(x)))
  }

  predicate LosesHandle(step: Step, x: Recording) {
    step == ByPython(DropHandle(x))
  }

  predicate StartsImporter(step: Step, x: Recording) {
    step == ByPython(StartImporter(x))
  }

  predicate EndsImporter(step: Step, x: Recording) {
    step == ByImporter(EndListed(x)) || step == ByImporter(EndAwaited(x)) || step == ByImporter(EndTaken(x))
  }

  function One(happens: bool): nat {
    if happens then 1 else 0
  }

  /** What Python has of `x` after a step, by what the step gives and takes. */
  ghost predicate PythonAddsUp(b: Bridge, step: Step, c: Bridge, x: Recording) {
    && c.python.slots[x] + One(EmptiesSlot(step, x)) == b.python.slots[x] + One(FillsSlot(step, x))
    && c.python.handles[x] + One(LosesHandle(step, x)) == b.python.handles[x] + One(GainsHandle(step, x))
  }

  ghost predicate ImportersAddUp(b: Bridge, step: Step, c: Bridge, x: Recording) {
    Running(c.importers, x) + One(EndsImporter(step, x)) == Running(b.importers, x) + One(StartsImporter(step, x))
  }

  lemma SlotStep(b: Bridge, was: Option<Recording>, to: Option<Recording>, x: Recording)
    requires PythonMay(b, SetSlot(was, to))
    ensures PythonAddsUp(b, ByPython(SetSlot(was, to)), AfterPython(b, SetSlot(was, to)), x)
  {
  }

  lemma LeavingAddsUp(b: Bridge, was: Recording, x: Recording)
    requires Inv(b) && PythonMay(b, LeaveThread(was))
    ensures PythonAddsUp(b, ByPython(LeaveThread(was)), AfterPython(b, LeaveThread(was)), x)
  {
    LeaveThreadIs(b, was);
  }

  lemma DroppingAddsUp(b: Bridge, r: Recording, x: Recording)
    requires Inv(b) && PythonMay(b, DropHandle(r))
    ensures PythonAddsUp(b, ByPython(DropHandle(r)), AfterPython(b, DropHandle(r)), x)
  {
    DropHandleIs(b, r);
  }

  lemma LightAddsUp(b: Bridge, step: PythonStep, x: Recording)
    requires PythonMay(b, step) && !Drops(step) && !step.SetSlot?
    ensures PythonAddsUp(b, ByPython(step), AfterPython(b, step), x)
  {
  }

  lemma {:induction false} PythonStepAddsUp(b: Bridge, step: PythonStep, x: Recording)
    requires Inv(b) && PythonMay(b, step)
    ensures PythonAddsUp(b, ByPython(step), AfterPython(b, step), x)
  {
    match step
    case LeaveThread(was) => LeavingAddsUp(b, was, x);
    case DropHandle(r) => DroppingAddsUp(b, r, x);
    case SetSlot(was, to) => SlotStep(b, was, to, x);
    case _ => LightAddsUp(b, step, x);
  }

  lemma LightRuns(b: Bridge, step: PythonStep, x: Recording)
    requires PythonMay(b, step) && !Drops(step)
    ensures ImportersAddUp(b, ByPython(step), AfterPython(b, step), x)
  {
    if step.StartWaiting? { ListsMove(b.importers, step.r); }
  }

  lemma DowngradeRuns(b: Bridge, r: Recording, x: Recording)
    requires Inv(b) && ImporterMay(b, Downgrade(r))
    ensures ImportersAddUp(b, ByImporter(Downgrade(r)), AfterImporter(b, Downgrade(r)), x)
    ensures AfterImporter(b, Downgrade(r)).python == b.python
  {
    DowngradeFrees(b, r);
  }

  lemma EndRuns(b: Bridge, step: ImporterStep, x: Recording)
    requires ImporterMay(b, step) && !step.Downgrade?
    ensures ImportersAddUp(b, ByImporter(step), AfterImporter(b, step), x)
    ensures AfterImporter(b, step).python == b.python
  {
    EndIs(b.importers, step.r);
  }

  lemma NothingAddsUp(b: Bridge, step: Step, c: Bridge, x: Recording)
    requires !step.ByPython? && c.python == b.python
    ensures PythonAddsUp(b, step, c, x)
  {
  }

  lemma DropsRun(b: Bridge, step: PythonStep, x: Recording)
    requires Inv(b) && PythonMay(b, step) && Drops(step)
    ensures ImportersAddUp(b, ByPython(step), AfterPython(b, step), x)
  {
    DroppingIs(b, step);
  }

  lemma PythonRuns(b: Bridge, step: PythonStep, x: Recording)
    requires Inv(b) && PythonMay(b, step)
    ensures ImportersAddUp(b, ByPython(step), AfterPython(b, step), x)
  {
    if Drops(step) { DropsRun(b, step, x); } else { LightRuns(b, step, x); }
  }

  lemma ImporterStepAddsUp(b: Bridge, step: ImporterStep, x: Recording)
    requires Inv(b) && ImporterMay(b, step)
    ensures PythonAddsUp(b, ByImporter(step), AfterImporter(b, step), x)
    ensures ImportersAddUp(b, ByImporter(step), AfterImporter(b, step), x)
  {
    if step.Downgrade? { DowngradeRuns(b, step.r, x); } else { EndRuns(b, step, x); }
    NothingAddsUp(b, ByImporter(step), AfterImporter(b, step), x);
  }

  lemma LoopStepAddsUp(b: Bridge, step: LoopStep, x: Recording)
    requires Inv(b) && LoopMay(b, step)
    ensures PythonAddsUp(b, ByLoop(step), AfterLoop(b, step), x)
    ensures ImportersAddUp(b, ByLoop(step), AfterLoop(b, step), x)
  {
    LoopLeavesPython(b, step);
    NothingAddsUp(b, ByLoop(step), AfterLoop(b, step), x);
  }

  lemma {:induction false} StepAddsUp(b: Bridge, step: Step, x: Recording)
    requires Inv(b) && Enabled(b, step)
    ensures PythonAddsUp(b, step, Apply(b, step), x) && ImportersAddUp(b, step, Apply(b, step), x)
  {
    match step
    case ByPython(p) =>
      PythonStepAddsUp(b, p, x);
      PythonRuns(b, p, x);
    case ByImporter(i) => ImporterStepAddsUp(b, i, x);
    case ByLoop(l) => LoopStepAddsUp(b, l, x);
  }

  // ----- over runs -----

  /** How many of the steps are such. */
  function Tally(steps: seq<Step>, such: Step -> bool): nat {
    if steps == [] then 0 else One(such(steps[0])) + Tally(steps[1..], such)
  }

  /** Objects, slots and importers are conserved: over every run there are as many for `x` as there
      were, and as were added, less those that were given up. */
  lemma {:induction false} HoldingsAddUp(b: Bridge, steps: seq<Step>, c: Bridge, x: Recording)
    requires Inv(b) && Leads(Next, b, steps, c)
    ensures c.python.slots[x] + Tally(steps, s => EmptiesSlot(s, x))
      == b.python.slots[x] + Tally(steps, s => FillsSlot(s, x))
    ensures c.python.handles[x] + Tally(steps, s => LosesHandle(s, x))
      == b.python.handles[x] + Tally(steps, s => GainsHandle(s, x))
    ensures Running(c.importers, x) + Tally(steps, s => EndsImporter(s, x))
      == Running(b.importers, x) + Tally(steps, s => StartsImporter(s, x))
    decreases |steps|
  {
    if steps != [] {
      StepKeepsInv(b, steps[0]);
      StepAddsUp(b, steps[0], x);
      HoldingsAddUp(Apply(b, steps[0]), steps[1..], c, x);
    }
  }

  /** What is within Python's reach and listed is listed after the next step, if it is still within
      reach then. */
  lemma ListedStaysListed(b: Bridge, step: Step, r: Recording)
    requires Inv(b) && Enabled(b, step) && r in b.all && Reachable(Apply(b, step), r)
    ensures r in Apply(b, step).all && Inv(Apply(b, step))
  {
    StepKeepsInv(b, step);
    OwnerAfterStep(b, step, r);
    ReachableIsLive(Apply(b, step), r);
  }

  /** A recording in a slot stays registered, is not moved to the orphans and not freed, whatever
      happens, until every slot that holds it has been set anew or its thread has left. */
  lemma {:induction false} SlotKeepsRecording(b: Bridge, steps: seq<Step>, c: Bridge, r: Recording)
    requires Inv(b) && Leads(Next, b, steps, c) && Tally(steps, s => EmptiesSlot(s, r)) < b.python.slots[r]
    ensures r in c.python.slots && Inv(c)
    ensures (r in c.all || r in c.building) && r !in c.moving && r !in c.orphaned && r !in c.freed
    ensures r in b.all ==> r in c.all
    decreases |steps|
  {
    if steps == [] {
      ReachableIsLive(c, r);
    } else {
      var d := Apply(b, steps[0]);
      StepAddsUp(b, steps[0], r);
      if r in b.all { ListedStaysListed(b, steps[0], r); }
      StepKeepsInv(b, steps[0]);
      SlotKeepsRecording(d, steps[1..], c, r);
    }
  }

  // ----- waiting for importers -----

  /** Nothing is listed for `r`, and no more has been taken by loops than `most`. */
  ghost predicate Waited(im: Importers, r: Recording, most: nat) {
    im.listed[r] == 0 && im.taken[r] <= most
  }

  lemma PythonKeepsWaited(b: Bridge, step: PythonStep, r: Recording, most: nat)
    requires Inv(b) && PythonMay(b, step) && step != StartImporter(r) && Waited(b.importers, r, most)
    ensures Waited(AfterPython(b, step).importers, r, most)
  {
    if Drops(step) {
      DroppingIs(b, step);
    } else {
      LightKeepsWaited(b, step, r, most);
    }
  }

  lemma LightKeepsWaited(b: Bridge, step: PythonStep, r: Recording, most: nat)
    requires PythonMay(b, step) && !Drops(step) && step != StartImporter(r) && Waited(b.importers, r, most)
    ensures Waited(AfterPython(b, step).importers, r, most)
  {
  }

  lemma ImporterKeepsWaited(b: Bridge, step: ImporterStep, r: Recording, most: nat)
    requires Inv(b) && ImporterMay(b, step) && Waited(b.importers, r, most)
    ensures Waited(AfterImporter(b, step).importers, r, most)
  {
    if step.Downgrade? { DowngradeFrees(b, step.r); }
  }

  lemma TakingKeepsWaited(im: Importers, x: Recording, r: Recording, most: nat)
    requires Waited(im, r, most)
    ensures Waited(Taken(im, x), r, most)
  {
  }

  /** A loop takes the handles of one recording, or none. */
  lemma {:induction false} LoopTakesOne(b: Bridge, step: LoopStep) returns (x: Option<Recording>)
    requires Inv(b) && LoopMay(b, step)
    ensures AfterLoop(b, step).importers == if x.None? then b.importers else Taken(b.importers, x.value)
  {
    x := None;
    match step
    case FlushTake =>
      if b.allLock.next < |b.all| + |b.orphaned| { x := Some(Element(b, b.allLock.next)); }
    case ShutdownTake => if b.allLock.next < |b.all| { x := Some(b.all[b.allLock.next]); }
    case DisconnectTake => x := Some(b.all[b.allLock.next]);
    case CleanCheck(v) => CleanCheckIs(b, v);
    case CleanDrop(v) => x := DropTakesOne(b, v);
    case CleanJoined(v) =>
      ChosenStaysAlone(b, v);
      TakenOutTakesOut(b, v, LockOf(b, v).next);
    case _ =>
  }

  lemma {:induction false} DropTakesOne(b: Bridge, v: Vector) returns (x: Option<Recording>)
    requires Inv(b) && LoopMay(b, CleanDrop(v))
    ensures AfterLoop(b, CleanDrop(v)).importers == if x.None? then b.importers else Taken(b.importers, x.value)
  {
    var i := LockOf(b, v).next;
    ChosenStaysAlone(b, v);
    TakenOutTakesOut(b, v, i);
    CleanDropIs(b, v);
    x := if RefCount(b, ListOf(b, v)[i]) == 1 then Some(ListOf(b, v)[i]) else None;
  }

  lemma {:induction false} StepKeepsWaited(b: Bridge, step: Step, r: Recording, most: nat)
    requires Inv(b) && Enabled(b, step) && !StartsImporter(step, r) && Waited(b.importers, r, most)
    ensures Waited(Apply(b, step).importers, r, most)
  {
    match step
    case ByPython(p) => PythonKeepsWaited(b, p, r, most);
    case ByImporter(i) => ImporterKeepsWaited(b, i, r, most);
    case ByLoop(l) =>
      var x := LoopTakesOne(b, l);
      if x.Some? { TakingKeepsWaited(b.importers, x.value, r, most); }
  }

  lemma {:induction false} RunKeepsWaited(b: Bridge, steps: seq<Step>, c: Bridge, r: Recording, most: nat)
    requires Inv(b) && Leads(Next, b, steps, c) && Waited(b.importers, r, most)
    requires Tally(steps, s => StartsImporter(s, r)) == 0
    ensures Waited(c.importers, r, most)
    decreases |steps|
  {
    if steps != [] {
      StepKeepsInv(b, steps[0]);
      StepKeepsWaited(b, steps[0], r, most);
      RunKeepsWaited(Apply(b, steps[0]), steps[1..], c, r, most);
    }
  }

  /** `flush` and `disconnect` of a Python thread: when the last thread that waits for the importers
      of `r` may go on, none of those that ran at its call runs any more, except those that a loop
      had already taken, provided that no new one was started. */
  lemma {:induction false} WaitingJoins(b: Bridge, steps: seq<Step>, c: Bridge, r: Recording)
    requires Inv(b) && PythonMay(b, StartWaiting(r)) && Leads(Next, AfterPython(b, StartWaiting(r)), steps, c)
    requires Tally(steps, s => StartsImporter(s, r)) == 0
    requires PythonMay(c, StopWaiting(r)) && c.python.waiters[r] == 1
    ensures Running(c.importers, r) <= b.importers.taken[r]
  {
    PythonKeepsInv(b, StartWaiting(r));
    RunKeepsWaited(AfterPython(b, StartWaiting(r)), steps, c, r, b.importers.taken[r]);
  }
}
