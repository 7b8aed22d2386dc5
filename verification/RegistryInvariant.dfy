/** What every step on the recording registry keeps. */
module RegistryInvariant {
  import opened Graphs
  import opened Registry

  ghost predicate Holds(owner: map<Recording, Owner>, rs: seq<Recording>, o: Owner) {
    NoDuplicates(rs) && forall r :: r in rs <==> r in owner && owner[r] == o
  }

  /** The owner of a recording is where the bridge's own reference to it is. */
  ghost predicate Owned(b: Bridge) {
    && Holds(b.owner, b.all, InAll) && Holds(b.owner, b.moving, Moving) && Holds(b.owner, b.orphaned, InOrphaned)
    && (forall r :: r in b.building <==> r in b.owner && b.owner[r] == Building)
    && (forall r :: r in b.freed <==> r in b.owner && b.owner[r] == Gone)
  }

  /** The bridge has no reference to `r`. */
  predicate Ownerless(b: Bridge, r: Recording) {
    OwnerOf(b, r) == Unborn || OwnerOf(b, r) == Gone || OwnerOf(b, r) == Adrift
  }

  /** Within Python's reach. */
  predicate Live(owner: map<Recording, Owner>, r: Recording) {
    r in owner && (owner[r] == Building || owner[r] == InAll)
  }

  /** Python reaches live recordings only, and whoever waits on a recording holds it. */
  ghost predicate Reached(owner: map<Recording, Owner>, python: Python) {
    && (forall r :: r in python.handles || r in python.slots ==> Live(owner, r))
    && python.waiters <= python.handles
  }

  /** Recordings that may have importer threads: not before they are built, and not once they are
      disconnected for good. */
  predicate Importable(owner: map<Recording, Owner>, r: Recording) {
    r in owner && owner[r] != Unborn && owner[r] != Moving && owner[r] != InOrphaned
  }

  /** Importers hold nothing that is freed, and hold what is adrift. */
  ghost predicate Imported(owner: map<Recording, Owner>, im: Importers) {
    && (forall r :: im.transient[r] <= Running(im, r))
    && (forall r :: Running(im, r) > 0 ==> Importable(owner, r))
    && (forall r :: r in im.transient ==> r in owner && owner[r] != Gone)
    && (forall r :: r in owner && owner[r] == Adrift ==> r in im.transient)
  }

  ghost predicate Awaited(waiters: multiset<Recording>, im: Importers) {
    forall r :: r in im.awaited ==> r in waiters
  }

  ghost predicate CutOff(owner: map<Recording, Owner>, disconnected: set<Recording>) {
    forall r :: r in owner && (owner[r] == Moving || owner[r] == InOrphaned) ==> r in disconnected
  }

  ghost predicate Safe(b: Bridge) {
    && Reached(b.owner, b.python) && Imported(b.owner, b.importers)
    && Awaited(b.python.waiters, b.importers) && CutOff(b.owner, b.disconnected)
  }

  /** The loop has found the element with a count of 1. */
  predicate Chosen(lock: Lock) {
    lock.Condemned? || lock.MoveJoining? || lock.Removing? || lock.DropJoining?
  }

  predicate Joins(lock: Lock) {
    lock.FlushJoining? || lock.ShutdownJoining? || lock.MoveJoining? || lock.DropJoining?
  }

  predicate Unheld(python: Python, r: Recording) {
    r !in python.handles && r !in python.slots
  }

  /** An element found with a count of 1 stays out of Python's reach until it is dealt with, and
      has no listed importer once a loop joins them. */
  ghost predicate WatchedAll(all: seq<Recording>, lock: Lock, python: Python, im: Importers) {
    && !lock.Lent?
    && (Chosen(lock) ==> lock.next < |all| && Unheld(python, all[lock.next]))
    && (lock.MoveJoining? || lock.DropJoining? ==> all[lock.next] !in im.listed)
    && (lock.ShutdownJoining? ==> lock.next < |all|)
  }

  /** Importers are taken by the loop that joins them, and by nobody else. */
  ghost predicate TakenByLoop(all: seq<Recording>, lock: Lock, im: Importers) {
    forall r :: r in im.taken ==> Joins(lock) && lock.next < |all| && all[lock.next] == r
  }

  ghost predicate WatchedOrphans(orphaned: seq<Recording>, lock: Lock, all: seq<Recording>, allLock: Lock) {
    && (lock.Free? || lock.Lent? || lock.Cleaning? || lock.Removing? || lock.DropJoining?)
    && (Chosen(lock) ==> lock.next < |orphaned|)
    && (lock.Lent? <==> allLock.Flushing? || allLock.FlushJoining?)
    && (allLock.FlushJoining? ==> allLock.next < |all| + |orphaned|)
  }

  ghost predicate Watched(b: Bridge) {
    && WatchedAll(b.all, b.allLock, b.python, b.importers)
    && TakenByLoop(b.all, b.allLock, b.importers)
    && WatchedOrphans(b.orphaned, b.orphanedLock, b.all, b.allLock)
  }

  ghost predicate Inv(b: Bridge) {
    Owned(b) && Safe(b) && Watched(b)
  }

  lemma InitInv(b: Bridge)
    requires Init(b)
    ensures Inv(b)
  {
  }

  // ----- reference counts -----

  lemma {:induction false} CountOnce(s: seq<Recording>, r: Recording)
    requires NoDuplicates(s)
    ensures Count(s, r) == if r in s then 1 else 0
    decreases |s|
  {
    if s != [] {
      CountOnce(s[..|s| - 1], r);
      assert s == s[..|s| - 1] + [s[|s| - 1]];
    }
  }

  /** The references the bridge itself holds: one, unless the recording has no owner. */
  lemma BridgeHoldsOne(b: Bridge, r: Recording)
    requires Owned(b)
    ensures Count(b.all, r) + Count(b.orphaned, r) + Count(b.moving, r) + (if r in b.building then 1 else 0)
      == if Ownerless(b, r) then 0 else 1
  {
    CountOnce(b.all, r);
    CountOnce(b.orphaned, r);
    CountOnce(b.moving, r);
  }

  lemma CountIsOneMoreThanOutside(b: Bridge, r: Recording)
    requires Owned(b) && !Ownerless(b, r)
    ensures RefCount(b, r) == 1 + OutsideCount(b, r)
  {
    BridgeHoldsOne(b, r);
  }

  /** A count of 1 on a recording with an owner means that nobody else holds it. */
  lemma LastReference(b: Bridge, r: Recording)
    requires Owned(b) && !Ownerless(b, r)
    ensures RefCount(b, r) >= 1
    ensures RefCount(b, r) == 1 <==> Alone(b, r) && r !in b.importers.transient
  {
    BridgeHoldsOne(b, r);
  }

  lemma ListedHasOwner(b: Bridge, v: Vector, i: nat)
    requires Owned(b) && i < |ListOf(b, v)|
    ensures OwnerOf(b, ListOf(b, v)[i]) == if v == All then InAll else InOrphaned
  {
    assert ListOf(b, v)[i] in ListOf(b, v);
  }

  lemma NotRunning(b: Bridge, r: Recording)
    requires Safe(b) && Running(b.importers, r) == 0
    ensures r !in b.importers.transient && r !in b.importers.listed && r !in b.importers.taken
  {
    assert b.importers.transient[r] <= Running(b.importers, r);
  }

  /** Nobody but its vector holds an orphan, and no importer writes to it. */
  lemma OrphansAreAlone(b: Bridge, r: Recording)
    requires Safe(b) && (OwnerOf(b, r) == Moving || OwnerOf(b, r) == InOrphaned)
    ensures Alone(b, r) && Running(b.importers, r) == 0
  {
  }

  // ----- owners -----

  lemma HoldsGains(owner: map<Recording, Owner>, rs: seq<Recording>, o: Owner, r: Recording)
    requires Holds(owner, rs, o) && (r in owner ==> owner[r] != o)
    ensures Holds(owner[r := o], rs + [r], o)
  {
    assert r !in rs;
  }

  lemma HoldsLoses(owner: map<Recording, Owner>, rs: seq<Recording>, o: Owner, i: nat, p: Owner)
    requires Holds(owner, rs, o) && i < |rs| && p != o
    ensures Holds(owner[rs[i] := p], Without(rs, i), o)
  {
    var rest := Without(rs, i);
    assert rs == rs[..i] + [rs[i]] + rs[i + 1..];
    assert forall k :: 0 <= k < |rest| ==> rest[k] == if k < i then rs[k] else rs[k + 1];
  }

  lemma HoldsUntouched(owner: map<Recording, Owner>, rs: seq<Recording>, o: Owner, r: Recording, p: Owner)
    requires Holds(owner, rs, o) && (r in owner ==> owner[r] != o) && p != o
    ensures Holds(owner[r := p], rs, o)
  {
  }

  /** A new owner for `r`, which Python does not hold or which stays within its reach. */
  lemma OwnerChangeIsSafe(b: Bridge, c: Bridge, r: Recording, o: Owner)
    requires Safe(b) && c.owner == b.owner[r := o] && c.importers == b.importers && c.python == b.python
    requires b.disconnected <= c.disconnected
    requires Alone(b, r) || o == InAll || o == Building
    requires o != Unborn && (o == Gone ==> r !in b.importers.transient) && (o == Adrift ==> r in b.importers.transient)
    requires o == Moving || o == InOrphaned ==> r in c.disconnected && Running(b.importers, r) == 0
    ensures Safe(c)
  {
    if Running(b.importers, r) == 0 { NotRunning(b, r); }
    ImportedUnder(b.owner, b.importers, r, o);
  }

  lemma ImportedUnder(owner: map<Recording, Owner>, im: Importers, r: Recording, o: Owner)
    requires Imported(owner, im) && o != Unborn
    requires (o == Gone ==> r !in im.transient) && (o == Adrift ==> r in im.transient)
    requires o == Moving || o == InOrphaned ==> Running(im, r) == 0
    ensures Imported(owner[r := o], im)
  {
  }

  // ----- Python's steps -----

  lemma BuildKeepsOwned(b: Bridge, r: Recording)
    requires Owned(b) && OwnerOf(b, r) == Unborn
    ensures Owned(b.(building := b.building + {r}, owner := b.owner[r := Building]))
  {
    HoldsUntouched(b.owner, b.all, InAll, r, Building);
    HoldsUntouched(b.owner, b.moving, Moving, r, Building);
    HoldsUntouched(b.owner, b.orphaned, InOrphaned, r, Building);
  }

  lemma BuildKeepsInv(b: Bridge, r: Recording)
    requires Inv(b) && PythonMay(b, Build(r))
    ensures Inv(AfterPython(b, Build(r)))
  {
    var c := b.(building := b.building + {r}, owner := b.owner[r := Building]);
    BuildKeepsOwned(b, r);
    OwnerChangeIsSafe(b, c, r, Building);
  }

  lemma RegisterKeepsOwned(b: Bridge, c: Bridge, r: Recording)
    requires Owned(b) && r in b.building && c.moving == b.moving && c.orphaned == b.orphaned && c.freed == b.freed
    requires c.building == b.building - {r} && c.all == b.all + [r] && c.owner == b.owner[r := InAll]
    ensures Owned(c)
  {
    HoldsGains(b.owner, b.all, InAll, r);
    HoldsUntouched(b.owner, b.moving, Moving, r, InAll);
    HoldsUntouched(b.owner, b.orphaned, InOrphaned, r, InAll);
  }

  lemma RegisterIs(b: Bridge, r: Recording)
    requires PythonMay(b, Register(r))
    ensures
      var p := b.python.(handles := b.python.handles + multiset{r});
      AfterPython(b, Register(r)) ==
        b.(building := b.building - {r}, python := p, all := b.all + [r], owner := b.owner[r := InAll])
  {
  }

  lemma RegisterKeepsSafe(b: Bridge, r: Recording)
    requires Owned(b) && Safe(b) && r in b.building
    ensures Reached(b.owner[r := InAll], b.python.(handles := b.python.handles + multiset{r}))
    ensures Imported(b.owner[r := InAll], b.importers) && CutOff(b.owner[r := InAll], b.disconnected)
  {
    ImportedUnder(b.owner, b.importers, r, InAll);
  }

  lemma RegisterKeepsWatched(b: Bridge, c: Bridge, r: Recording)
    requires Watched(b) && b.allLock == Free && c.all == b.all + [r] && c.allLock == Free
    requires c.orphaned == b.orphaned && c.orphanedLock == b.orphanedLock && c.importers == b.importers
    ensures Watched(c)
  {
  }

  lemma RegisterKeepsInv(b: Bridge, r: Recording)
    requires Inv(b) && PythonMay(b, Register(r))
    ensures Inv(AfterPython(b, Register(r)))
  {
    var c := AfterPython(b, Register(r));
    RegisterIs(b, r);
    RegisterKeepsOwned(b, c, r);
    RegisterKeepsSafe(b, r);
    RegisterKeepsWatched(b, c, r);
  }

  /** A step that changes nothing but what Python holds, within its reach. */
  ghost predicate OnlyPython(b: Bridge, c: Bridge) {
    c == b.(python := c.python) && Reached(b.owner, c.python) && Awaited(c.python.waiters, b.importers)
    && forall r :: Unheld(b.python, r) && r !in b.building ==> Unheld(c.python, r)
  }

  lemma OnlyPythonKeepsInv(b: Bridge, c: Bridge)
    requires Inv(b) && OnlyPython(b, c)
    ensures Inv(c)
  {
    if Chosen(b.allLock) { ListedHasOwner(b, All, b.allLock.next); }
  }

  /** Giving up a handle or a slot never frees a recording. */
  lemma StillHeld(b: Bridge, r: Recording)
    requires Owned(b) && !Ownerless(b, r)
    ensures RefCount(b, r) > 0
  {
    BridgeHoldsOne(b, r);
  }

  lemma LeaveThreadIs(b: Bridge, was: Recording)
    requires Inv(b) && PythonMay(b, LeaveThread(was))
    ensures AfterPython(b, LeaveThread(was)) == b.(python := b.python.(slots := b.python.slots - multiset{was}))
  {
    StillHeld(b.(python := b.python.(slots := b.python.slots - multiset{was})), was);
  }

  lemma DropHandleIs(b: Bridge, r: Recording)
    requires Inv(b) && PythonMay(b, DropHandle(r))
    ensures AfterPython(b, DropHandle(r)) == b.(python := b.python.(handles := b.python.handles - multiset{r}))
  {
    StillHeld(b.(python := b.python.(handles := b.python.handles - multiset{r})), r);
  }

  lemma SlotSwap(p: Python, was: Option<Recording>, to: Option<Recording>, q: Python)
    requires p.waiters <= p.handles && (was.Some? ==> was.value in p.slots)
    requires q.slots == p.slots - References(was) + References(to)
    requires q.handles == p.handles + References(was) && q.waiters == p.waiters
    ensures q.waiters <= q.handles
    ensures forall r :: r in q.handles || r in q.slots ==> r in p.handles || r in p.slots || Some(r) == to
  {
  }

  lemma ReachableIsLive(b: Bridge, r: Recording)
    requires Inv(b) && Reachable(b, r)
    ensures Live(b.owner, r) && (r in b.all || r in b.building)
  {
  }

  lemma SetSlotKeepsInv(b: Bridge, was: Option<Recording>, to: Option<Recording>)
    requires Inv(b) && PythonMay(b, SetSlot(was, to))
    ensures Inv(AfterPython(b, SetSlot(was, to)))
  {
    var c := AfterPython(b, SetSlot(was, to));
    SlotSwap(b.python, was, to, c.python);
    if to.Some? { ReachableIsLive(b, to.value); }
    OnlyPythonKeepsInv(b, c);
  }

  lemma LeaveThreadKeepsInv(b: Bridge, was: Recording)
    requires Inv(b) && PythonMay(b, LeaveThread(was))
    ensures Inv(AfterPython(b, LeaveThread(was)))
  {
    LeaveThreadIs(b, was);
    OnlyPythonKeepsInv(b, b.(python := b.python.(slots := b.python.slots - multiset{was})));
  }

  lemma CloneHandleKeepsInv(b: Bridge, r: Recording)
    requires Inv(b) && PythonMay(b, CloneHandle(r))
    ensures Inv(AfterPython(b, CloneHandle(r)))
  {
    ReachableIsLive(b, r);
    OnlyPythonKeepsInv(b, b.(python := b.python.(handles := b.python.handles + multiset{r})));
  }

  lemma DropHandleKeepsInv(b: Bridge, r: Recording)
    requires Inv(b) && PythonMay(b, DropHandle(r))
    ensures Inv(AfterPython(b, DropHandle(r)))
  {
    DropHandleIs(b, r);
    OnlyPythonKeepsInv(b, b.(python := b.python.(handles := b.python.handles - multiset{r})));
  }

  lemma FewerWait(p: Python, im: Importers, r: Recording)
    requires Awaited(p.waiters, im) && p.waiters <= p.handles && (p.waiters[r] > 1 || r !in im.awaited)
    ensures Awaited(p.waiters - multiset{r}, im) && p.waiters - multiset{r} <= p.handles
  {
  }

  lemma StopWaitingKeepsInv(b: Bridge, r: Recording)
    requires Inv(b) && PythonMay(b, StopWaiting(r))
    ensures Inv(AfterPython(b, StopWaiting(r)))
  {
    FewerWait(b.python, b.importers, r);
    OnlyPythonKeepsInv(b, b.(python := b.python.(waiters := b.python.waiters - multiset{r})));
  }

  /** A step that changes nothing but which importers there are, and lists none for a recording that
      Python does not hold. */
  ghost predicate OnlyImporters(b: Bridge, c: Bridge) {
    && c == b.(importers := c.importers) && Imported(b.owner, c.importers)
    && Awaited(b.python.waiters, c.importers)
    && (forall r :: r in c.importers.taken ==> r in b.importers.taken)
    && forall r :: r in c.importers.listed ==> r in b.importers.listed || !Alone(b, r)
  }

  lemma OnlyImportersKeepsInv(b: Bridge, c: Bridge)
    requires Inv(b) && OnlyImporters(b, c)
    ensures Inv(c)
  {
  }

  lemma StartImporterKeepsInv(b: Bridge, r: Recording)
    requires Inv(b) && PythonMay(b, StartImporter(r))
    ensures Inv(AfterPython(b, StartImporter(r)))
  {
    var c := AfterPython(b, StartImporter(r));
    assert forall x :: Running(c.importers, x) == Running(b.importers, x) + if x == r then 1 else 0;
    OnlyImportersKeepsInv(b, c);
  }

  /** Handles go from one list to another: as many importers run as before. */
  lemma ListsMove(im: Importers, r: Recording)
    ensures
      var taken := Taken(im, r);
      && (forall x :: Running(taken, x) == Running(im, x))
      && taken.transient == im.transient && taken.awaited == im.awaited
      && r !in taken.listed && (forall x :: x in taken.listed ==> x in im.listed)
      && forall x :: x in taken.taken ==> x in im.taken || (x == r && r in im.listed)
    ensures
      var waited := im.(listed := im.listed[r := 0], awaited := Moved(im.listed, im.awaited, r));
      && (forall x :: Running(waited, x) == Running(im, x))
      && waited.transient == im.transient && waited.taken == im.taken
      && (forall x :: x in waited.listed ==> x in im.listed)
      && forall x :: x in waited.awaited ==> x in im.awaited || x == r
  {
  }

  lemma ImportedDepends(owner: map<Recording, Owner>, im: Importers, jm: Importers)
    requires Imported(owner, im) && jm.transient == im.transient
    requires forall r :: Running(jm, r) == Running(im, r)
    ensures Imported(owner, jm)
  {
  }

  lemma StartWaitingKeepsInv(b: Bridge, r: Recording)
    requires Inv(b) && PythonMay(b, StartWaiting(r))
    ensures Inv(AfterPython(b, StartWaiting(r)))
  {
    var c := b.(python := b.python.(waiters := b.python.waiters + multiset{r}));
    var d := AfterPython(b, StartWaiting(r));
    OnlyPythonKeepsInv(b, c);
    ListsMove(b.importers, r);
    ImportedDepends(b.owner, b.importers, d.importers);
    OnlyImportersKeepsInv(c, d);
  }

  lemma SinkKeepsInv(b: Bridge, step: PythonStep)
    requires Inv(b) && PythonMay(b, step) && (step.SetSink? || step.Disconnect?)
    ensures Inv(AfterPython(b, step))
  {
    if step.SetSink? { ReachableIsLive(b, step.r); }
  }

  lemma PythonKeepsInv(b: Bridge, step: PythonStep)
    requires Inv(b) && PythonMay(b, step)
    ensures Inv(AfterPython(b, step))
  {
    match step
    case Build(r) => BuildKeepsInv(b, r);
    case Register(r) => RegisterKeepsInv(b, r);
    case SetSlot(was, to) => SetSlotKeepsInv(b, was, to);
    case LeaveThread(was) => LeaveThreadKeepsInv(b, was);
    case CloneHandle(r) => CloneHandleKeepsInv(b, r);
    case DropHandle(r) => DropHandleKeepsInv(b, r);
    case StartImporter(r) => StartImporterKeepsInv(b, r);
    case StartWaiting(r) => StartWaitingKeepsInv(b, r);
    case StopWaiting(r) => StopWaitingKeepsInv(b, r);
    case SetSink(_) => SinkKeepsInv(b, step);
    case Disconnect(_) => SinkKeepsInv(b, step);
  }

  // ----- importers' steps -----

  /** An importer that lets go frees its recording exactly when that is adrift and no other
      importer holds it. */
  lemma DowngradeFrees(b: Bridge, r: Recording)
    requires Inv(b) && r in b.importers.transient
    ensures
      var c := b.(importers := b.importers.(transient := b.importers.transient - multiset{r}));
      AfterImporter(b, Downgrade(r)) ==
        if OwnerOf(b, r) == Adrift && b.importers.transient[r] == 1
        then c.(freed := b.freed + {r}, owner := b.owner[r := Gone]) else c
  {
    var c := b.(importers := b.importers.(transient := b.importers.transient - multiset{r}));
    BridgeHoldsOne(c, r);
    assert !Live(b.owner, r) ==> Alone(c, r);
  }

  lemma FreedKeepsOwned(b: Bridge, c: Bridge, r: Recording)
    requires Owned(b) && OwnerOf(b, r) == Adrift
    requires c.all == b.all && c.orphaned == b.orphaned && c.moving == b.moving && c.building == b.building
    requires c.freed == b.freed + {r} && c.owner == b.owner[r := Gone]
    ensures Owned(c)
  {
    HoldsUntouched(b.owner, b.all, InAll, r, Gone);
    HoldsUntouched(b.owner, b.moving, Moving, r, Gone);
    HoldsUntouched(b.owner, b.orphaned, InOrphaned, r, Gone);
  }

  lemma LessHeld(owner: map<Recording, Owner>, im: Importers, r: Recording)
    requires Imported(owner, im) && r in im.transient
    ensures
      var less := im.(transient := im.transient - multiset{r});
      && (im.transient[r] > 1 || OwnerIn(owner, r) != Adrift ==> Imported(owner, less))
      && (im.transient[r] == 1 ==> Imported(owner[r := Gone], less))
  {
    var less := im.(transient := im.transient - multiset{r});
    assert forall x :: Running(less, x) == Running(im, x);
    assert Running(im, r) > 0;
  }

  function OwnerIn(owner: map<Recording, Owner>, r: Recording): Owner {
    if r in owner then owner[r] else Unborn
  }

  lemma DowngradeKeepsInv(b: Bridge, r: Recording)
    requires Inv(b) && ImporterMay(b, Downgrade(r))
    ensures Inv(AfterImporter(b, Downgrade(r)))
  {
    var c := AfterImporter(b, Downgrade(r));
    DowngradeFrees(b, r);
    LessHeld(b.owner, b.importers, r);
    if OwnerOf(b, r) == Adrift && b.importers.transient[r] == 1 {
      FreedKeepsOwned(b, c, r);
    } else {
      OnlyImportersKeepsInv(b, c);
    }
  }

  lemma UpgradeKeepsInv(b: Bridge, r: Recording)
    requires Inv(b) && ImporterMay(b, Upgrade(r))
    ensures Inv(AfterImporter(b, Upgrade(r)))
  {
    var c := AfterImporter(b, Upgrade(r));
    BridgeHoldsOne(b, r);
    assert OwnerOf(b, r) != Unborn && OwnerOf(b, r) != Gone;
    assert forall x :: Running(c.importers, x) == Running(b.importers, x);
    OnlyImportersKeepsInv(b, c);
  }

  lemma OneEnds(owner: map<Recording, Owner>, im: Importers, jm: Importers, r: Recording)
    requires Imported(owner, im) && jm.transient == im.transient && Running(im, r) > im.transient[r]
    requires forall x :: Running(jm, x) == if x == r then Running(im, x) - 1 else Running(im, x)
    ensures Imported(owner, jm)
  {
  }

  lemma EndIs(im: Importers, r: Recording)
    ensures
      var jm := im.(listed := im.listed - multiset{r});
      r in im.listed ==> forall x :: Running(jm, x) == if x == r then Running(im, x) - 1 else Running(im, x)
    ensures
      var jm := im.(awaited := im.awaited - multiset{r});
      r in im.awaited ==> forall x :: Running(jm, x) == if x == r then Running(im, x) - 1 else Running(im, x)
    ensures
      var jm := im.(taken := im.taken - multiset{r});
      r in im.taken ==> forall x :: Running(jm, x) == if x == r then Running(im, x) - 1 else Running(im, x)
  {
  }

  lemma EndKeepsInv(b: Bridge, step: ImporterStep)
    requires Inv(b) && ImporterMay(b, step) && (step.EndListed? || step.EndAwaited? || step.EndTaken?)
    ensures Inv(AfterImporter(b, step))
  {
    var c := AfterImporter(b, step);
    EndIs(b.importers, step.r);
    OneEnds(b.owner, b.importers, c.importers, step.r);
    OnlyImportersKeepsInv(b, c);
  }

  lemma ImporterKeepsInv(b: Bridge, step: ImporterStep)
    requires Inv(b) && ImporterMay(b, step)
    ensures Inv(AfterImporter(b, step))
  {
    match step
    case Upgrade(r) => UpgradeKeepsInv(b, r);
    case Downgrade(r) => DowngradeKeepsInv(b, r);
    case _ => EndKeepsInv(b, step);
  }

  // ----- loop steps -----

  /** A loop moves on or takes handles: nothing else changes. */
  ghost predicate OnlyLocks(b: Bridge, c: Bridge) {
    && c == b.(importers := c.importers, allLock := c.allLock, orphanedLock := c.orphanedLock, calls := c.calls)
    && c.importers.transient == b.importers.transient && c.importers.awaited == b.importers.awaited
    && forall r :: Running(c.importers, r) == Running(b.importers, r)
  }

  lemma OnlyLocksKeepsInv(b: Bridge, c: Bridge)
    requires Inv(b) && OnlyLocks(b, c) && Watched(c)
    ensures Inv(c)
  {
    ImportedDepends(b.owner, b.importers, c.importers);
  }

  /** When a loop does not join, nothing is taken. */
  lemma NothingTaken(b: Bridge)
    requires Inv(b) && (Joins(b.allLock) && b.allLock.next < |b.all| ==> b.all[b.allLock.next] !in b.importers.taken)
    ensures forall r :: r !in b.importers.taken
  {
  }

  lemma StartFlushingKeepsInv(b: Bridge)
    requires Inv(b) && LoopMay(b, StartFlushing)
    ensures Inv(AfterLoop(b, StartFlushing))
  {
    NothingTaken(b);
    OnlyLocksKeepsInv(b, b.(allLock := Flushing(0), orphanedLock := Lent));
  }

  lemma FlushTakesOne(b: Bridge, c: Bridge)
    requires Inv(b) && b.allLock.Flushing? && b.allLock.next < |b.all| + |b.orphaned|
    requires
      c == b.(importers := Taken(b.importers, Element(b, b.allLock.next)), allLock := FlushJoining(b.allLock.next))
    ensures Watched(c) && OnlyLocks(b, c)
  {
    var n := b.allLock.next;
    var r := Element(b, n);
    ListsMove(b.importers, r);
    NothingTaken(b);
    if n >= |b.all| {
      assert r in b.orphaned;
      OrphansAreAlone(b, r);
    }
  }

  lemma FlushTakeKeepsInv(b: Bridge)
    requires Inv(b) && LoopMay(b, FlushTake)
    ensures Inv(AfterLoop(b, FlushTake))
  {
    var c := AfterFlushTake(b);
    if b.allLock.next < |b.all| + |b.orphaned| {
      FlushTakesOne(b, c);
    } else {
      NothingTaken(b);
    }
    OnlyLocksKeepsInv(b, c);
  }

  lemma FlushNextKeepsInv(b: Bridge)
    requires Inv(b) && LoopMay(b, FlushNext)
    ensures Inv(AfterLoop(b, FlushNext))
  {
    NothingTaken(b);
    OnlyLocksKeepsInv(b, b.(allLock := Flushing(b.allLock.next + 1)));
  }

  /** The loops over ALL_RECORDINGS that do not involve the orphans' lock. */
  lemma RelockedAllKeepsInv(b: Bridge, c: Bridge)
    requires Inv(b) && c == b.(allLock := c.allLock, calls := c.calls)
    requires !b.allLock.Flushing? && !b.allLock.FlushJoining?
    requires Joins(b.allLock) ==> b.allLock.next < |b.all| && b.all[b.allLock.next] !in b.importers.taken
    requires !c.allLock.Lent? && !c.allLock.Flushing? && !Joins(c.allLock)
    requires Chosen(c.allLock) ==> c.allLock.next < |b.all| && Alone(b, b.all[c.allLock.next])
    ensures Inv(c)
  {
    OnlyLocksKeepsInv(b, c);
  }

  lemma TakeAllKeepsInv(b: Bridge, c: Bridge, i: nat)
    requires Inv(b) && i < |b.all| && !b.orphanedLock.Lent? && forall r :: r !in b.importers.taken
    requires c == b.(importers := Taken(b.importers, b.all[i]), allLock := c.allLock)
    requires
      || c.allLock == ShutdownJoining(i)
      || (Alone(b, b.all[i]) && (c.allLock == MoveJoining(i) || c.allLock == DropJoining(i)))
    ensures Inv(c)
  {
    ListsMove(b.importers, b.all[i]);
    OnlyLocksKeepsInv(b, c);
  }

  lemma StartShutdownKeepsInv(b: Bridge)
    requires Inv(b) && LoopMay(b, StartShutdown)
    ensures Inv(AfterLoop(b, StartShutdown))
  {
    RelockedAllKeepsInv(b, b.(allLock := ShuttingDown(0)));
  }

  lemma ShutdownTakeKeepsInv(b: Bridge)
    requires Inv(b) && LoopMay(b, ShutdownTake)
    ensures Inv(AfterLoop(b, ShutdownTake))
  {
    if b.allLock.next < |b.all| {
      NothingTaken(b);
      TakeAllKeepsInv(b, AfterShutdownTake(b), b.allLock.next);
    } else {
      RelockedAllKeepsInv(b, b.(allLock := Free));
    }
  }

  lemma ShutdownNextKeepsInv(b: Bridge)
    requires Inv(b) && LoopMay(b, ShutdownNext)
    ensures Inv(AfterLoop(b, ShutdownNext))
  {
    RelockedAllKeepsInv(b, b.(allLock := ShuttingDown(b.allLock.next + 1)));
  }

  lemma DisconnectCheckKeepsInv(b: Bridge)
    requires Inv(b) && LoopMay(b, DisconnectCheck)
    ensures Inv(AfterLoop(b, DisconnectCheck))
  {
    var i := b.allLock.next;
    if i < |b.all| && RefCount(b, b.all[i]) <= 1 {
      ListedHasOwner(b, All, i);
      LastReference(b, b.all[i]);
    }
    RelockedAllKeepsInv(b, AfterDisconnectCheck(b));
  }

  lemma DisconnectTakeKeepsInv(b: Bridge)
    requires Inv(b) && LoopMay(b, DisconnectTake)
    ensures Inv(AfterLoop(b, DisconnectTake))
  {
    NothingTaken(b);
    TakeAllKeepsInv(b, AfterLoop(b, DisconnectTake), b.allLock.next);
  }

  /** Disconnecting an element that nobody holds joins all its importers. */
  lemma NoneLeft(b: Bridge)
    requires Inv(b) && (b.allLock.MoveJoining? || b.allLock.DropJoining?)
    requires b.all[b.allLock.next] !in b.importers.taken
    ensures Running(b.importers, b.all[b.allLock.next]) == 0 && Alone(b, b.all[b.allLock.next])
  {
    var r := b.all[b.allLock.next];
    assert r !in b.python.waiters by { assert b.python.waiters[r] <= b.python.handles[r]; }
    assert r !in b.importers.awaited;
  }

  lemma DisconnectMoveKeepsOwned(b: Bridge)
    requires Owned(b) && LoopMay(b, DisconnectMove)
    ensures Owned(AfterDisconnectMove(b))
  {
    var i := b.allLock.next;
    var r := b.all[i];
    ListedHasOwner(b, All, i);
    HoldsLoses(b.owner, b.all, InAll, i, Moving);
    HoldsGains(b.owner, b.moving, Moving, r);
    HoldsUntouched(b.owner, b.orphaned, InOrphaned, r, Moving);
  }

  lemma DisconnectMoveKeepsInv(b: Bridge)
    requires Inv(b) && LoopMay(b, DisconnectMove)
    ensures Inv(AfterLoop(b, DisconnectMove))
  {
    NothingTaken(b);
    NoneLeft(b);
    DisconnectMoveKeepsOwned(b);
    OwnerChangeIsSafe(b, AfterDisconnectMove(b), b.all[b.allLock.next], Moving);
    DisconnectMoveKeepsWatched(b);
  }

  lemma DisconnectMoveKeepsWatched(b: Bridge)
    requires Watched(b) && LoopMay(b, DisconnectMove) && forall r :: r !in b.importers.taken
    ensures Watched(AfterDisconnectMove(b))
  {
  }

  lemma ExtendKeepsOwned(b: Bridge)
    requires Owned(b) && b.moving != []
    ensures Owned(AfterExtend(b))
  {
    var r := b.moving[0];
    assert r in b.moving;
    HoldsLoses(b.owner, b.moving, Moving, 0, InOrphaned);
    assert Without(b.moving, 0) == b.moving[1..];
    HoldsGains(b.owner, b.orphaned, InOrphaned, r);
    HoldsUntouched(b.owner, b.all, InAll, r, InOrphaned);
  }

  lemma ExtendKeepsInv(b: Bridge)
    requires Inv(b) && LoopMay(b, Extend)
    ensures Inv(AfterLoop(b, Extend))
  {
    var r := b.moving[0];
    assert r in b.moving;
    ExtendKeepsOwned(b);
    OrphansAreAlone(b, r);
    OwnerChangeIsSafe(b, AfterExtend(b), r, InOrphaned);
  }

  // ----- cleaning -----

  lemma ChosenIsAlone(b: Bridge, v: Vector)
    requires Owned(b) && LockOf(b, v).Cleaning?
    ensures
      var lock := CheckedLock(b, v);
      Chosen(lock) ==> lock.next < |ListOf(b, v)| && Alone(b, ListOf(b, v)[lock.next])
  {
    var i := LockOf(b, v).next;
    if i < |ListOf(b, v)| {
      ListedHasOwner(b, v, i);
      LastReference(b, ListOf(b, v)[i]);
    }
  }

  lemma RelockedOrphansKeepsInv(b: Bridge, c: Bridge)
    requires Inv(b) && c == b.(orphanedLock := c.orphanedLock, calls := c.calls) && !b.orphanedLock.Lent?
    requires c.orphanedLock.Free? || c.orphanedLock.Cleaning? || c.orphanedLock.Removing?
    requires Chosen(c.orphanedLock) ==> c.orphanedLock.next < |b.orphaned|
    ensures Inv(c)
  {
    OnlyLocksKeepsInv(b, c);
  }

  lemma CleaningIsNotLent(b: Bridge, v: Vector)
    requires Inv(b)
    requires LockOf(b, v).Free? || LockOf(b, v).Cleaning? || LockOf(b, v).Removing? || LockOf(b, v).DropJoining?
    ensures !b.orphanedLock.Lent?
  {
  }

  lemma StartCleaningIs(b: Bridge, v: Vector)
    requires LoopMay(b, StartCleaning(v))
    ensures
      var c := AfterLoop(b, StartCleaning(v));
      && c == (if v == All then b.(allLock := Cleaning(0), calls := c.calls)
               else b.(orphanedLock := Cleaning(0), calls := c.calls))
  {
  }

  lemma CleaningAllKeepsInv(b: Bridge, lock: Lock, calls: Calls)
    requires Inv(b) && (b.allLock.Free? || b.allLock.Cleaning?)
    requires lock.Free? || lock.Cleaning? || (lock.Removing? && lock.next < |b.all| && Alone(b, b.all[lock.next]))
    ensures Inv(b.(allLock := lock, calls := calls))
  {
    RelockedAllKeepsInv(b, b.(allLock := lock, calls := calls));
  }

  lemma StartCleaningKeepsInv(b: Bridge, v: Vector)
    requires Inv(b) && LoopMay(b, StartCleaning(v))
    ensures Inv(AfterLoop(b, StartCleaning(v)))
  {
    var c := AfterLoop(b, StartCleaning(v));
    StartCleaningIs(b, v);
    if v == All {
      CleaningAllKeepsInv(b, Cleaning(0), c.calls);
    } else {
      RelockedOrphansKeepsInv(b, c);
    }
  }

  lemma CleanCheckIs(b: Bridge, v: Vector)
    requires LockOf(b, v).Cleaning?
    ensures
      var c := AfterCleanCheck(b, v);
      && c == (if v == All then b.(allLock := c.allLock, calls := c.calls) else b.(orphanedLock := c.orphanedLock))
      && LockOf(c, v) == CheckedLock(b, v)
  {
  }

  lemma CheckAllKeepsInv(b: Bridge)
    requires Inv(b) && b.allLock.Cleaning?
    ensures Inv(AfterCleanCheck(b, All))
  {
    ChosenIsAlone(b, All);
    CleanCheckIs(b, All);
    CleaningAllKeepsInv(b, CheckedLock(b, All), AfterCleanCheck(b, All).calls);
  }

  lemma CheckOrphansKeepsInv(b: Bridge)
    requires Inv(b) && b.orphanedLock.Cleaning?
    ensures Inv(AfterCleanCheck(b, Orphaned))
  {
    ChosenIsAlone(b, Orphaned);
    CleanCheckIs(b, Orphaned);
    RelockedOrphansKeepsInv(b, AfterCleanCheck(b, Orphaned));
  }

  lemma CleanCheckKeepsInv(b: Bridge, v: Vector)
    requires Inv(b) && LoopMay(b, CleanCheck(v))
    ensures Inv(AfterLoop(b, CleanCheck(v)))
  {
    if v == All { CheckAllKeepsInv(b); } else { CheckOrphansKeepsInv(b); }
  }

  /** The vector's reference is the only one of the bridge. */
  lemma CountWithoutVector(b: Bridge, v: Vector, i: nat)
    requires Owned(b) && i < |ListOf(b, v)| && Alone(b, ListOf(b, v)[i])
    ensures
      var r, rest := ListOf(b, v)[i], Without(ListOf(b, v), i);
      var c := Locked(if v == All then b.(all := rest) else b.(orphaned := rest), v, Cleaning(i));
      && RefCount(c, r) == b.importers.transient[r]
      && RefCount(b, r) == 1 + b.importers.transient[r]
  {
    var r, rest := ListOf(b, v)[i], Without(ListOf(b, v), i);
    ListedHasOwner(b, v, i);
    HoldsLoses(b.owner, ListOf(b, v), if v == All then InAll else InOrphaned, i, Gone);
    BridgeHoldsOne(b, r);
    CountOnce(b.all, r);
    CountOnce(b.orphaned, r);
    CountOnce(b.moving, r);
    CountOnce(rest, r);
  }

  /** `c` is `b` with element `i` taken out: freed if no importer holds it, and else adrift. */
  ghost predicate TakesOut(b: Bridge, v: Vector, i: nat, c: Bridge)
    requires i < |ListOf(b, v)|
  {
    var r := ListOf(b, v)[i];
    && ListOf(c, v) == Without(ListOf(b, v), i) && LockOf(c, v) == Cleaning(i)
    && ListOf(c, Other(v)) == ListOf(b, Other(v)) && LockOf(c, Other(v)) == LockOf(b, Other(v))
    && c.moving == b.moving && c.building == b.building && c.disconnected == b.disconnected
    && c.python == b.python && c.importers == b.importers && c.calls == b.calls
    && c.owner == b.owner[r := if r in b.importers.transient then Adrift else Gone]
    && c.freed == if r in b.importers.transient then b.freed else b.freed + {r}
  }

  lemma TakenOutTakesOut(b: Bridge, v: Vector, i: nat)
    requires Owned(b) && i < |ListOf(b, v)| && Alone(b, ListOf(b, v)[i])
    ensures TakesOut(b, v, i, TakenOut(b, v, i))
  {
    CountWithoutVector(b, v, i);
  }

  lemma TakesOutKeepsOwned(b: Bridge, v: Vector, i: nat, c: Bridge)
    requires Owned(b) && i < |ListOf(b, v)| && TakesOut(b, v, i, c)
    ensures Owned(c)
  {
    var r := ListOf(b, v)[i];
    var o := if r in b.importers.transient then Adrift else Gone;
    ListedHasOwner(b, v, i);
    HoldsLoses(b.owner, ListOf(b, v), if v == All then InAll else InOrphaned, i, o);
    HoldsUntouched(b.owner, b.moving, Moving, r, o);
    HoldsUntouched(b.owner, ListOf(b, Other(v)), if v == All then InOrphaned else InAll, r, o);
  }

  lemma TakesOutKeepsWatched(b: Bridge, v: Vector, i: nat, c: Bridge)
    requires Inv(b) && i < |ListOf(b, v)| && TakesOut(b, v, i, c)
    requires LockOf(b, v).Removing? || LockOf(b, v).DropJoining?
    requires v == All ==> forall r :: r !in b.importers.taken
    ensures Watched(c)
  {
    assert LockOf(c, All) == c.allLock && LockOf(c, Orphaned) == c.orphanedLock;
    assert ListOf(c, All) == c.all && ListOf(c, Orphaned) == c.orphaned;
  }

  lemma TakenOutKeepsInv(b: Bridge, v: Vector, i: nat)
    requires Inv(b) && i < |ListOf(b, v)| && Alone(b, ListOf(b, v)[i])
    requires LockOf(b, v).Removing? || LockOf(b, v).DropJoining?
    requires v == All ==> forall r :: r !in b.importers.taken
    ensures Inv(TakenOut(b, v, i)) && TakesOut(b, v, i, TakenOut(b, v, i))
  {
    var r, c := ListOf(b, v)[i], TakenOut(b, v, i);
    TakenOutTakesOut(b, v, i);
    TakesOutKeepsOwned(b, v, i, c);
    TakesOutKeepsWatched(b, v, i, c);
    OwnerChangeIsSafe(b, c, r, if r in b.importers.transient then Adrift else Gone);
  }

  lemma ChosenStaysAlone(b: Bridge, v: Vector)
    requires Inv(b) && Chosen(LockOf(b, v))
    ensures LockOf(b, v).next < |ListOf(b, v)| && Alone(b, ListOf(b, v)[LockOf(b, v).next])
  {
    if v == Orphaned { OrphanAtIsAlone(b, b.orphanedLock.next); }
  }

  lemma OrphanAtIsAlone(b: Bridge, i: nat)
    requires Inv(b) && i < |b.orphaned|
    ensures Alone(b, b.orphaned[i]) && Running(b.importers, b.orphaned[i]) == 0
  {
    ListedHasOwner(b, Orphaned, i);
    OrphansAreAlone(b, b.orphaned[i]);
  }

  lemma TakeOrphanKeepsInv(b: Bridge, i: nat)
    requires Inv(b) && b.orphanedLock == Removing(i) && i < |b.orphaned|
    ensures Inv(b.(importers := Taken(b.importers, b.orphaned[i]), orphanedLock := DropJoining(i)))
  {
    OrphanAtIsAlone(b, i);
    ListsMove(b.importers, b.orphaned[i]);
    OnlyLocksKeepsInv(b, b.(importers := Taken(b.importers, b.orphaned[i]), orphanedLock := DropJoining(i)));
  }

  lemma CleanDropIs(b: Bridge, v: Vector)
    requires LoopMay(b, CleanDrop(v))
    ensures
      var i := LockOf(b, v).next;
      var r := ListOf(b, v)[i];
      AfterLoop(b, CleanDrop(v)) ==
        if RefCount(b, r) == 1 then Locked(b.(importers := Taken(b.importers, r)), v, DropJoining(i))
        else TakenOut(b, v, i)
  {
  }

  lemma CleanDropKeepsInv(b: Bridge, v: Vector)
    requires Inv(b) && LoopMay(b, CleanDrop(v))
    ensures Inv(AfterLoop(b, CleanDrop(v)))
  {
    var i := LockOf(b, v).next;
    ChosenStaysAlone(b, v);
    CleaningIsNotLent(b, v);
    CleanDropIs(b, v);
    if v == All { NothingTaken(b); }
    if RefCount(b, ListOf(b, v)[i]) != 1 {
      TakenOutKeepsInv(b, v, i);
    } else if v == All {
      TakeAllKeepsInv(b, Locked(b.(importers := Taken(b.importers, b.all[i])), v, DropJoining(i)), i);
    } else {
      TakeOrphanKeepsInv(b, i);
    }
  }

  lemma CleanJoinedKeepsInv(b: Bridge, v: Vector)
    requires Inv(b) && LoopMay(b, CleanJoined(v))
    ensures Inv(AfterLoop(b, CleanJoined(v)))
  {
    ChosenStaysAlone(b, v);
    if v == All { NothingTaken(b); }
    TakenOutKeepsInv(b, v, LockOf(b, v).next);
  }

  // ----- every step -----

  lemma LoopKeepsInv(b: Bridge, step: LoopStep)
    requires Inv(b) && LoopMay(b, step)
    ensures Inv(AfterLoop(b, step))
  {
    match step
    case StartFlushing => StartFlushingKeepsInv(b);
    case FlushTake => FlushTakeKeepsInv(b);
    case FlushNext => FlushNextKeepsInv(b);
    case StartShutdown => StartShutdownKeepsInv(b);
    case ShutdownTake => ShutdownTakeKeepsInv(b);
    case ShutdownNext => ShutdownNextKeepsInv(b);
    case StartDisconnecting => StartDisconnectingKeepsInv(b);
    case DisconnectCheck => DisconnectCheckKeepsInv(b);
    case DisconnectTake => DisconnectTakeKeepsInv(b);
    case DisconnectMove => DisconnectMoveKeepsInv(b);
    case Extend => ExtendKeepsInv(b);
    case StartCleaning(v) => StartCleaningKeepsInv(b, v);
    case CleanCheck(v) => CleanCheckKeepsInv(b, v);
    case CleanDrop(v) => CleanDropKeepsInv(b, v);
    case CleanJoined(v) => CleanJoinedKeepsInv(b, v);
  }

  lemma StartDisconnectingKeepsInv(b: Bridge)
    requires Inv(b) && LoopMay(b, StartDisconnecting)
    ensures Inv(AfterLoop(b, StartDisconnecting))
  {
    RelockedAllKeepsInv(b, b.(allLock := Disconnecting(0)));
  }

  /** Whatever thread takes it, a step keeps ownership, safety and the loops' places. */
  lemma StepKeepsInv(b: Bridge, step: Step)
    requires Inv(b) && Enabled(b, step)
    ensures Inv(Apply(b, step))
  {
    match step
    case ByPython(p) => PythonKeepsInv(b, p);
    case ByImporter(i) => ImporterKeepsInv(b, i);
    case ByLoop(l) => LoopKeepsInv(b, l);
  }
}
