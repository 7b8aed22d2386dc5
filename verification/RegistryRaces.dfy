/** The race between the loop over ALL_RECORDINGS that cleans up and an importer thread: the run that
    shows it, and exactly when it can happen. */
module RegistryRaces {
  import opened Graphs
  import opened Runs
  import opened Registry
  import opened RegistryInvariant
  import opened RegistryRuns
  import opened RegistryFlush
  import opened RegistryJoins
  import opened RegistryLoops

  ghost predicate MayGoAdrift(b: Bridge, r: Recording) {
    exists steps, c :: Leads(Next, b, steps, c) && OwnerOf(c, r) == Adrift
  }

  // ----- a late upgrade -----

  /** The loop has found its element with a count of 1, and an importer of it still runs. */
  ghost predicate Racing(c: Bridge, i: nat) {
    AtUnheld(c, All, i) && Running(c.importers, c.all[i]) > 0
  }

  lemma UpgradeIs(c: Bridge, i: nat)
    requires Racing(c, i)
    ensures ImporterMay(c, Upgrade(c.all[i]))
  {
  }

  lemma {:induction false} DropsTooEarly(start: Bridge, steps: seq<Step>, c: Bridge, i: nat)
    returns (more: seq<Step>, d: Bridge)
    requires Inv(c) && c.allLock == Removing(i) && i < |c.all| && Alone(c, c.all[i])
    requires c.all[i] in c.importers.transient && Leads(Next, start, steps, c)
    ensures more == steps + [ByLoop(CleanDrop(All))] && Leads(Next, start, more, d) && Inv(d)
    ensures OwnerOf(d, c.all[i]) == Adrift && d.freed == c.freed && d.importers == c.importers
  {
    AlsoLoop(start, steps, c, CleanDrop(All));
    CountWithoutVector(c, All, i);
    CleanDropIs(c, All);
    TakenOutTakesOut(c, All, i);
    more, d := steps + [ByLoop(CleanDrop(All))], TakenOut(c, All, i);
  }

  lemma {:induction false} ChecksUnheld(start: Bridge, steps: seq<Step>, c: Bridge, i: nat)
    requires c.allLock == Cleaning(i) && AtUnheld(c, All, i) && Leads(Next, start, steps, c)
    ensures
      var d := c.(allLock := Removing(i));
      Leads(Next, start, steps + [ByLoop(CleanCheck(All))], d) && Inv(d)
  {
    AlsoLoop(start, steps, c, CleanCheck(All));
    CheckGoesOn(c, All, i);
  }

  lemma {:induction false} UpgradesLate(start: Bridge, steps: seq<Step>, d: Bridge, r: Recording) returns (e: Bridge)
    requires Inv(d) && ImporterMay(d, Upgrade(r)) && Leads(Next, start, steps, d)
    ensures Leads(Next, start, steps + [ByImporter(Upgrade(r))], e) && Inv(e)
    ensures e == d.(importers := d.importers.(transient := d.importers.transient + multiset{r}))
  {
    AlsoImporter(start, steps, d, Upgrade(r));
    e := AfterImporter(d, Upgrade(r));
  }

  /** The check, the late upgrade, and the drop that does not wait. */
  lemma {:induction false} LateUpgrade(start: Bridge, steps: seq<Step>, c: Bridge, i: nat)
    returns (more: seq<Step>, d: Bridge)
    requires c.allLock == Cleaning(i) && Racing(c, i) && Leads(Next, start, steps, c)
    ensures more ==
      steps + [ByLoop(CleanCheck(All))] + [ByImporter(Upgrade(c.all[i]))] + [ByLoop(CleanDrop(All))]
    ensures Leads(Next, start, more, d) && Inv(d) && OwnerOf(d, c.all[i]) == Adrift
    ensures d.freed == c.freed && d.importers.transient == c.importers.transient + multiset{c.all[i]}
  {
    ChecksUnheld(start, steps, c, i);
    UpgradeIs(c, i);
    more := steps + [ByLoop(CleanCheck(All))];
    d := UpgradesLate(start, more, c.(allLock := Removing(i)), c.all[i]);
    more, d := DropsTooEarly(start, more + [ByImporter(Upgrade(c.all[i]))], d, i);
  }

  /** When the loop has read a count of 1, the recording can go adrift exactly if one of its importers
      is still running. */
  lemma {:induction false} RaceAtCheckExactlyWhen(b: Bridge, i: nat)
    requires b.allLock == Cleaning(i) && AtUnheld(b, All, i)
    ensures MayGoAdrift(b, b.all[i]) <==> Running(b.importers, b.all[i]) > 0
  {
    var r := b.all[i];
    ListedHasOwner(b, All, i);
    if Running(b.importers, r) > 0 {
      assert Leads(Next, b, [], b);
      var steps, c := LateUpgrade(b, [], b, i);
    } else if MayGoAdrift(b, r) {
      var steps, c :| Leads(Next, b, steps, c) && OwnerOf(c, r) == Adrift;
      NeverAdriftWithoutImporter(b, steps, c, r);
    }
  }

  // ----- from the start of the loop -----

  /** The loop comes to element `k`. */
  lemma {:induction false} ReachElement(start: Bridge, before: seq<Step>, b: Bridge, k: nat)
    returns (steps: seq<Step>, c: Bridge)
    requires Inv(b) && b.allLock == Cleaning(0) && k <= |b.all| && Leads(Next, start, before, b)
    ensures Leads(Next, start, steps, c) && Cleaned(b, All, k, c)
    decreases k
  {
    if k == 0 {
      CleanStart(b, All);
      steps, c := before, b;
    } else {
      var d;
      steps, d := ReachElement(start, before, b, k - 1);
      steps := CleanStep(start, steps, b, All, k - 1, d);
      c := CleanedOne(d, All);
    }
  }

  lemma {:induction false} ReachedIsListed(b: Bridge, k: nat, c: Bridge)
    requires Inv(b) && k < |b.all| && Cleaned(b, All, k, c)
    ensures
      var i := |Kept(b, b.all, k)|;
      i < |c.all| && c.all[i] == b.all[k] && c.allLock == Cleaning(i)
    ensures Running(c.importers, b.all[k]) == Running(b.importers, b.all[k])
  {
    RetainNext(b, b.all, k, c.all);
    HeldOutsideMembers(b, b.all[..k], false);
    assert b.all[k] !in b.all[..k];
  }

  lemma UnheldElement(c: Bridge, i: nat)
    requires Inv(c) && i < |c.all| && Alone(c, c.all[i]) && c.all[i] !in c.importers.transient
    ensures AtUnheld(c, All, i)
  {
    ListedHasOwner(c, All, i);
    LastReference(c, c.all[i]);
  }

  /** The element the loop has come to is as it was at the start. */
  lemma {:induction false} ReachedIsRacing(b: Bridge, k: nat, c: Bridge)
    requires Inv(b) && k < |b.all| && Cleaned(b, All, k, c)
    requires Alone(b, b.all[k]) && b.all[k] !in b.importers.transient && Running(b.importers, b.all[k]) > 0
    ensures
      var i := |Kept(b, b.all, k)|;
      i < |c.all| && c.all[i] == b.all[k] && c.allLock == Cleaning(i) && Racing(c, i)
  {
    ReachedIsListed(b, k, c);
    UnheldElement(c, |Kept(b, b.all, k)|);
  }

  /** A run in which the recording goes adrift. */
  lemma {:induction false} RaceFromLoop(start: Bridge, before: seq<Step>, b: Bridge, k: nat)
    returns (steps: seq<Step>, c: Bridge)
    requires Inv(b) && b.allLock == Cleaning(0) && k < |b.all| && Leads(Next, start, before, b)
    requires Alone(b, b.all[k]) && Running(b.importers, b.all[k]) > 0
    ensures Leads(Next, start, steps, c) && Inv(c) && OwnerOf(c, b.all[k]) == Adrift
  {
    var r := b.all[k];
    var idle := LetGo(b, r);
    ListedHasOwner(b, All, k);
    steps := ImportersLetGo(start, before, b, r);
    var d;
    steps, d := ReachElement(start, steps, idle, k);
    ReachedIsRacing(idle, k, d);
    steps, c := LateUpgrade(start, steps, d, |Kept(idle, idle.all, k)|);
  }

  /** When the loop begins, a listed recording that Python has given up can go adrift exactly if one of
      its importers is still running. */
  lemma {:induction false} RaceAtLoopExactlyWhen(b: Bridge, r: Recording)
    requires Inv(b) && b.allLock == Cleaning(0) && r in b.all && Alone(b, r)
    ensures MayGoAdrift(b, r) <==> Running(b.importers, r) > 0
  {
    var k :| 0 <= k < |b.all| && b.all[k] == r;
    ListedHasOwner(b, All, k);
    if Running(b.importers, r) > 0 {
      assert Leads(Next, b, [], b);
      var steps, c := RaceFromLoop(b, [], b, k);
    } else if MayGoAdrift(b, r) {
      var steps, c :| Leads(Next, b, steps, c) && OwnerOf(c, r) == Adrift;
      NeverAdriftWithoutImporter(b, steps, c, r);
    }
  }

  // ----- Python gives up a recording, after it has started one more importer -----

  function AwaitedEnded(b: Bridge, r: Recording): Bridge {
    b.(importers := b.importers.(awaited := b.importers.awaited[r := 0]))
  }

  /** The importers that Python threads wait for come to their end. */
  lemma {:induction false} AwaitedEnd(start: Bridge, steps: seq<Step>, b: Bridge, r: Recording)
    returns (more: seq<Step>)
    requires Inv(b) && r !in b.importers.transient && Leads(Next, start, steps, b)
    ensures Leads(Next, start, more, AwaitedEnded(b, r)) && Inv(AwaitedEnded(b, r))
    decreases b.importers.awaited[r]
  {
    if b.importers.awaited[r] == 0 {
      more := steps;
      assert b.importers.awaited[r := 0] == b.importers.awaited;
    } else {
      AlsoImporter(start, steps, b, EndAwaited(r));
      var c := AfterImporter(b, EndAwaited(r));
      assert c.importers.awaited[r := 0] == b.importers.awaited[r := 0];
      more := AwaitedEnd(start, steps + [ByImporter(EndAwaited(r))], c, r);
    }
  }

  function NobodyWaiting(b: Bridge, r: Recording): Bridge {
    b.(python := b.python.(waiters := b.python.waiters[r := 0]))
  }

  /** So the threads that wait for them go on. */
  lemma {:induction false} WaitersGoOn(start: Bridge, steps: seq<Step>, b: Bridge, r: Recording)
    returns (more: seq<Step>)
    requires Inv(b) && r !in b.importers.awaited && Leads(Next, start, steps, b)
    ensures Leads(Next, start, more, NobodyWaiting(b, r)) && Inv(NobodyWaiting(b, r))
    decreases b.python.waiters[r]
  {
    if b.python.waiters[r] == 0 {
      more := steps;
      assert b.python.waiters[r := 0] == b.python.waiters;
    } else {
      AlsoPython(start, steps, b, StopWaiting(r));
      var c := AfterPython(b, StopWaiting(r));
      assert c.python.waiters[r := 0] == b.python.waiters[r := 0];
      more := WaitersGoOn(start, steps + [ByPython(StopWaiting(r))], c, r);
    }
  }

  /** `c` is `b` with `r` in no slot; nothing but what Python holds has changed. */
  ghost predicate SlotsEmpty(b: Bridge, r: Recording, c: Bridge) {
    Inv(c) && c == b.(python := c.python) && r !in c.python.slots && c.python.waiters == b.python.waiters
  }

  /** Python code empties the slots that hold `r`. */
  lemma {:induction false} SlotsEmptied(start: Bridge, steps: seq<Step>, b: Bridge, r: Recording)
    returns (more: seq<Step>, c: Bridge)
    requires Inv(b) && Leads(Next, start, steps, b)
    ensures Leads(Next, start, more, c) && SlotsEmpty(b, r, c)
    decreases b.python.slots[r]
  {
    if b.python.slots[r] == 0 {
      more, c := steps, b;
    } else {
      SlotEmptied(b.python, r);
      AlsoPython(start, steps, b, SetSlot(Some(r), None));
      more, c := SlotsEmptied(
        start, steps + [ByPython(SetSlot(Some(r), None))], AfterPython(b, SetSlot(Some(r), None)), r);
    }
  }

  function HandlesDropped(b: Bridge, r: Recording): Bridge {
    b.(python := b.python.(handles := b.python.handles[r := 0]))
  }

  /** And drops its objects. */
  lemma {:induction false} HandlesGo(start: Bridge, steps: seq<Step>, b: Bridge, r: Recording) returns (more: seq<Step>)
    requires Inv(b) && r !in b.python.waiters && Leads(Next, start, steps, b)
    ensures Leads(Next, start, more, HandlesDropped(b, r)) && Inv(HandlesDropped(b, r))
    decreases b.python.handles[r]
  {
    if b.python.handles[r] == 0 {
      more := steps;
      assert b.python.handles[r := 0] == b.python.handles;
    } else {
      DropHandleIs(b, r);
      AlsoPython(start, steps, b, DropHandle(r));
      var c := AfterPython(b, DropHandle(r));
      assert c.python.handles[r := 0] == b.python.handles[r := 0];
      more := HandlesGo(start, steps + [ByPython(DropHandle(r))], c, r);
    }
  }

  /** `c` is `b` with `r` given up by Python while an importer of it runs. */
  ghost predicate GivenUp(b: Bridge, r: Recording, c: Bridge) {
    && Inv(c) && c == b.(python := c.python, importers := c.importers)
    && Alone(c, r) && Running(c.importers, r) > 0
  }

  /** All threads that wait for importers of `r` go on. */
  lemma {:induction false} NobodyIsBusy(start: Bridge, steps: seq<Step>, b: Bridge, r: Recording)
    returns (more: seq<Step>, c: Bridge)
    requires Inv(b) && r in b.all && Leads(Next, start, steps, b)
    ensures Leads(Next, start, more, c) && Inv(c) && r !in c.python.waiters
    ensures c == b.(python := c.python, importers := c.importers)
    ensures c.python.slots == b.python.slots && c.python.handles == b.python.handles
  {
    more := ImportersLetGo(start, steps, b, r);
    more := AwaitedEnd(start, more, LetGo(b, r), r);
    c := AwaitedEnded(LetGo(b, r), r);
    more := WaitersGoOn(start, more, c, r);
    c := NobodyWaiting(c, r);
  }

  lemma {:induction false} StartsOneMore(start: Bridge, steps: seq<Step>, b: Bridge, r: Recording)
    returns (more: seq<Step>, c: Bridge)
    requires Inv(b) && !Alone(b, r) && Leads(Next, start, steps, b)
    ensures Leads(Next, start, more, c) && Inv(c) && c == b.(importers := c.importers) && r in c.importers.listed
  {
    AlsoPython(start, steps, b, StartImporter(r));
    more, c := steps + [ByPython(StartImporter(r))], AfterPython(b, StartImporter(r));
  }

  lemma {:induction false} StartsAndGivesUp(start: Bridge, steps: seq<Step>, b: Bridge, r: Recording)
    returns (more: seq<Step>, c: Bridge)
    requires Inv(b) && r in b.all && !Alone(b, r) && Leads(Next, start, steps, b)
    ensures Leads(Next, start, more, c) && GivenUp(b, r, c)
  {
    more, c := NobodyIsBusy(start, steps, b, r);
    more, c := StartsOneMore(start, more, c, r);
    more, c := SlotsEmptied(start, more, c, r);
    more := HandlesGo(start, more, c, r);
    c := HandlesDropped(c, r);
  }

  // ----- the flush loop -----

  /** The flush loop has come past the listed recording `r`. */
  predicate Passed(b: Bridge, n: nat, r: Recording) {
    n > |b.all| || r in b.all[..n]
  }

  lemma {:induction false} PassedIsNotAhead(b: Bridge, n: nat, r: Recording)
    requires Owned(b) && n <= |b.all| + |b.orphaned| && r in b.all && Passed(b, n, r)
    ensures r !in Flushed(b, n, |b.all| + |b.orphaned|)
  {
    forall i: nat | n <= i < |b.all| + |b.orphaned| ensures Element(b, i) != r {
      if i >= |b.all| { ListedHasOwner(b, Orphaned, i - |b.all|); }
    }
  }

  lemma {:induction false} FlushEndsWith(b: Bridge, n: nat) returns (steps: seq<Step>, c: Bridge)
    requires Inv(b) && b.allLock == Flushing(n) && n <= |b.all| + |b.orphaned|
    ensures Leads(Next, b, steps, c) && Inv(c) && c.all == b.all && c.python == b.python
    ensures c.allLock == Free && c.calls.flushed > 0
    ensures forall r :: r in b.all && Passed(b, n, r) ==> Running(c.importers, r) == Running(b.importers, r)
  {
    assert Leads(Next, b, [], b);
    var d;
    steps, d := FlushRest(b, [], b, n, n, b);
    c := FlushEnded(d);
    forall r | r in b.all && Passed(b, n, r) ensures Running(c.importers, r) == Running(b.importers, r) {
      PassedIsNotAhead(b, n, r);
    }
  }

  lemma {:induction false} LoopBegins(start: Bridge, steps: seq<Step>, b: Bridge) returns (more: seq<Step>, c: Bridge)
    requires Inv(b) && b.allLock == Free && b.calls.flushed > 0 && Leads(Next, start, steps, b)
    ensures Leads(Next, start, more, c) && Inv(c) && c.allLock == Cleaning(0)
    ensures c.all == b.all && c.python == b.python && c.importers == b.importers
  {
    AlsoLoop(start, steps, b, StartCleaning(All));
    more, c := steps + [ByLoop(StartCleaning(All))], AfterStartCleaning(b, All);
  }

  /** A run in which a recording that Python holds during the flush loop goes adrift, or one that was
      given up behind it. */
  lemma {:induction false} RaceFromFlush(b: Bridge, n: nat, r: Recording) returns (steps: seq<Step>, c: Bridge)
    requires Inv(b) && b.allLock == Flushing(n) && n <= |b.all| + |b.orphaned| && r in b.all
    requires !Alone(b, r) || (Passed(b, n, r) && Running(b.importers, r) > 0)
    ensures Leads(Next, b, steps, c) && Inv(c) && OwnerOf(c, r) == Adrift
  {
    var d, f;
    steps, d := FlushEndsWith(b, n);
    if !Alone(b, r) { steps, d := StartsAndGivesUp(b, steps, d, r); }
    steps, f := LoopBegins(b, steps, d);
    var k :| 0 <= k < |f.all| && f.all[k] == r;
    steps, c := RaceFromLoop(b, steps, f, k);
  }

  /** While `flush_and_cleanup_orphaned_recordings` flushes, a listed recording can go adrift, and then
      be freed by an importer thread, exactly if Python can still reach it, or gave it up behind the
      flush loop with an importer still running. Before the loop has come to it, that is exactly if
      Python can still reach it. */
  lemma {:induction false} RaceAtFlushExactlyWhen(b: Bridge, n: nat, r: Recording)
    requires Inv(b) && b.allLock == Flushing(n) && n <= |b.all| + |b.orphaned| && r in b.all
    ensures MayGoAdrift(b, r) <==> Reachable(b, r) || (Passed(b, n, r) && Running(b.importers, r) > 0)
  {
    if Reachable(b, r) || (Passed(b, n, r) && Running(b.importers, r) > 0) {
      var steps, c := RaceFromFlush(b, n, r);
    } else if MayGoAdrift(b, r) {
      var steps, c :| Leads(Next, b, steps, c) && OwnerOf(c, r) == Adrift;
      GivenUpStaysOwned(b, steps, c, r);
    }
  }

  // ----- the run that shows it -----

  /** Thread 1 calls `flush_and_cleanup_orphaned_recordings`. Its flush loop has come past the recording
      when thread 2 starts an importer and drops the last object; the importer upgrades its reference
      between the check and the drop. */
  function FailingRun(r: Recording): seq<Step> {
    [ByPython(Build(r)), ByPython(Register(r)), ByLoop(StartFlushing), ByLoop(FlushTake), ByLoop(FlushNext),
     ByLoop(FlushTake), ByPython(StartImporter(r)), ByPython(DropHandle(r)), ByLoop(StartCleaning(All)),
     ByLoop(CleanCheck(All)), ByImporter(Upgrade(r)), ByLoop(CleanDrop(All))]
  }

  /** A registry with the one recording `r`, whose importers are listed. */
  function Only(
    r: Recording, handles: multiset<Recording>, listed: multiset<Recording>, lock: Lock, orphanedLock: Lock,
    flushed: nat)
    : Bridge
  {
    Bridge([r], [], [], {}, Python(multiset{}, handles, multiset{}),
      Importers(listed, multiset{}, multiset{}, multiset{}), {}, {}, lock, orphanedLock, Calls(flushed, 0),
      map[r := InAll])
  }

  lemma BuiltAndRegistered(start: Bridge, r: Recording) returns (b: Bridge)
    requires Init(start)
    ensures Next(start, ByPython(Build(r))) == Some(b)
    ensures Next(b, ByPython(Register(r))) == Some(Only(r, multiset{r}, multiset{}, Free, Free, 0))
  {
    b := start.(building := {r}, owner := map[r := Building]);
    assert start.building + {r} == {r} && b.building - {r} == {} && start.all + [r] == [r];
    assert b.python.handles + multiset{r} == multiset{r};
    assert b.owner[r := InAll] == map[r := InAll];
  }

  lemma FlushOfOne(r: Recording, handles: multiset<Recording>)
    ensures
      Next(Only(r, handles, multiset{}, Free, Free, 0), ByLoop(StartFlushing))
        == Some(Only(r, handles, multiset{}, Flushing(0), Lent, 0))
    ensures
      Next(Only(r, handles, multiset{}, Flushing(0), Lent, 0), ByLoop(FlushTake))
        == Some(Only(r, handles, multiset{}, FlushJoining(0), Lent, 0))
    ensures
      Next(Only(r, handles, multiset{}, FlushJoining(0), Lent, 0), ByLoop(FlushNext))
        == Some(Only(r, handles, multiset{}, Flushing(1), Lent, 0))
    ensures
      Next(Only(r, handles, multiset{}, Flushing(1), Lent, 0), ByLoop(FlushTake))
        == Some(Only(r, handles, multiset{}, Free, Free, 1))
  {
    var im := Only(r, handles, multiset{}, Flushing(0), Lent, 0).importers;
    assert im.listed[r := 0] == im.listed && Moved(im.listed, im.taken, r) == im.taken;
  }

  lemma StartedAndDropped(r: Recording)
    ensures
      Next(Only(r, multiset{r}, multiset{}, Free, Free, 1), ByPython(StartImporter(r)))
        == Some(Only(r, multiset{r}, multiset{r}, Free, Free, 1))
    ensures
      Next(Only(r, multiset{r}, multiset{r}, Free, Free, 1), ByPython(DropHandle(r)))
        == Some(Only(r, multiset{}, multiset{r}, Free, Free, 1))
    ensures
      Next(Only(r, multiset{}, multiset{r}, Free, Free, 1), ByLoop(StartCleaning(All)))
        == Some(Only(r, multiset{}, multiset{r}, Cleaning(0), Free, 0))
  {
    assert multiset{} + multiset{r} == multiset{r} && multiset{r} - multiset{r} == multiset{};
    assert Count([r], r) == 1;
  }

  lemma {:induction false} OneFurther(start: Bridge, run: seq<Step>, k: nat, c: Bridge, d: Bridge)
    requires k < |run| && Leads(Next, start, run[..k], c) && Next(c, run[k]) == Some(d)
    ensures Leads(Next, start, run[..k + 1], d)
  {
    LeadsOneMore(Next, start, run[..k], c, run[k], d);
    assert run[..k + 1] == run[..k] + [run[k]];
  }

  /** The flush loop finds no importer. */
  lemma {:induction false} FlushedInVain(start: Bridge, r: Recording)
    requires Init(start)
    ensures Leads(Next, start, FailingRun(r)[..6], Only(r, multiset{r}, multiset{}, Free, Free, 1))
  {
    var run, one := FailingRun(r), multiset{r};
    var b := BuiltAndRegistered(start, r);
    assert Leads(Next, start, run[..0], start);
    OneFurther(start, run, 0, start, b);
    OneFurther(start, run, 1, b, Only(r, one, multiset{}, Free, Free, 0));
    FlushOfOne(r, one);
    OneFurther(
      start, run, 2, Only(r, one, multiset{}, Free, Free, 0), Only(r, one, multiset{}, Flushing(0), Lent, 0));
    OneFurther(
      start, run, 3, Only(r, one, multiset{}, Flushing(0), Lent, 0),
      Only(r, one, multiset{}, FlushJoining(0), Lent, 0));
    OneFurther(
      start, run, 4, Only(r, one, multiset{}, FlushJoining(0), Lent, 0),
      Only(r, one, multiset{}, Flushing(1), Lent, 0));
    OneFurther(
      start, run, 5, Only(r, one, multiset{}, Flushing(1), Lent, 0), Only(r, one, multiset{}, Free, Free, 1));
  }

  /** The other thread starts one and gives up the recording. */
  lemma {:induction false} GivenUpWhileImporting(start: Bridge, r: Recording)
    requires Init(start)
    ensures Leads(Next, start, FailingRun(r)[..9], Only(r, multiset{}, multiset{r}, Cleaning(0), Free, 0))
    ensures Inv(Only(r, multiset{}, multiset{r}, Cleaning(0), Free, 0))
  {
    var run, one, none := FailingRun(r), multiset{r}, multiset{};
    FlushedInVain(start, r);
    StartedAndDropped(r);
    OneFurther(start, run, 6, Only(r, one, none, Free, Free, 1), Only(r, one, one, Free, Free, 1));
    OneFurther(start, run, 7, Only(r, one, one, Free, Free, 1), Only(r, none, one, Free, Free, 1));
    OneFurther(start, run, 8, Only(r, none, one, Free, Free, 1), Only(r, none, one, Cleaning(0), Free, 0));
    InitInv(start);
    RunKeepsInv(start, run[..9], Only(r, none, one, Cleaning(0), Free, 0));
  }

  lemma OnlyIsRacing(r: Recording)
    requires Inv(Only(r, multiset{}, multiset{r}, Cleaning(0), Free, 0))
    ensures Racing(Only(r, multiset{}, multiset{r}, Cleaning(0), Free, 0), 0)
  {
    assert Count([r], r) == 1;
  }

  /** From the empty registry that run ends with a recording that no registry holds any more, and the
      importer's next step frees it. */
  lemma {:induction false} AnImporterMayFree(start: Bridge, r: Recording) returns (b: Bridge)
    requires Init(start)
    ensures Leads(Next, start, FailingRun(r), b) && OwnerOf(b, r) == Adrift && r !in b.freed
    ensures ImporterMay(b, Downgrade(r)) && r in AfterImporter(b, Downgrade(r)).freed
  {
    var steps;
    GivenUpWhileImporting(start, r);
    OnlyIsRacing(r);
    steps, b := LateUpgrade(
      start, FailingRun(r)[..9], Only(r, multiset{}, multiset{r}, Cleaning(0), Free, 0), 0);
    assert steps == FailingRun(r);
    DowngradeFrees(b, r);
  }
}
