/** The recording registry of `dalaran_py/src/python_bridge.rs`: who holds a reference to a
    recording, and when the last reference may go. Threads interleave: reading a reference count,
    taking the handles of importer threads, joining those threads and dropping a reference are
    separate steps. */
module Registry {
  import opened Graphs

  /** A reference-counted `RecordingStream`, told apart by its allocation. */
  type Recording(==, !new)

  /** ALL_RECORDINGS and ORPHANED_RECORDINGS. */
  datatype Vector = All | Orphaned

  /** Who holds a vector's lock, and how far that loop has come with element `next`. */
  datatype Lock =
    | Free
    | Flushing(next: nat)         // about to wait for the element's importers
    | FlushJoining(next: nat)     // has taken their handles and joins them
    | Lent                        // the orphans, while the flush loop runs over both vectors
    | ShuttingDown(next: nat)     // `shutdown`: about to disconnect the element
    | ShutdownJoining(next: nat)
    | Disconnecting(next: nat)    // about to read the count
    | Condemned(next: nat)        // the count was 1: about to disconnect the element
    | MoveJoining(next: nat)      // disconnecting it, about to move it
    | Cleaning(next: nat)         // about to read the count
    | Removing(next: nat)         // the count was 1: about to drop the vector's reference
    | DropJoining(next: nat)      // the drop read 1 as well and joins importers, holding on

  /** History: the owner the bridge itself provides for a recording. `Adrift` has none left,
      though importer threads still hold it. */
  datatype Owner = Unborn | Building | InAll | Moving | InOrphaned | Adrift | Gone

  /** What Python has: global and per-thread slots, objects (also those that queued data keeps
      alive), and for each thread that waits for importers the object it waits on. */
  datatype Python = Python(slots: multiset<Recording>, handles: multiset<Recording>, waiters: multiset<Recording>)

  /** Importer threads, by the recording they write to: those whose handles the recording still
      lists, those that waiting Python threads and those that a loop has taken from the list; and
      those among them that have upgraded their weak reference. */
  datatype Importers = Importers(
    listed: multiset<Recording>,
    awaited: multiset<Recording>,
    taken: multiset<Recording>,
    transient: multiset<Recording>)

  /** Calls of `flush_and_cleanup_orphaned_recordings` that are past the flush loop, and past the
      first cleaning loop. */
  datatype Calls = Calls(flushed: nat, cleaned: nat)

  datatype Bridge = Bridge(
    all: seq<Recording>,
    orphaned: seq<Recording>,
    moving: seq<Recording>,           // on the way from the first to the second
    building: set<Recording>,         // locals of `new_recording` and `new_blueprint`
    python: Python,
    importers: Importers,
    disconnected: set<Recording>,
    freed: set<Recording>,            // the last reference is gone
    allLock: Lock,
    orphanedLock: Lock,
    calls: Calls,
    owner: map<Recording, Owner>)

  /** What happens on behalf of Python. */
  datatype PythonStep =
    | Build(r: Recording)
    | Register(r: Recording)
    | SetSlot(was: Option<Recording>, to: Option<Recording>)
    | LeaveThread(held: Recording)
    | CloneHandle(r: Recording)
    | DropHandle(r: Recording)
    | StartImporter(r: Recording)
    | StartWaiting(r: Recording)      // `flush`, `disconnect` and others wait for importers
    | StopWaiting(r: Recording)
    | SetSink(r: Recording)
    | Disconnect(r: Recording)

  /** What an importer thread does. */
  datatype ImporterStep =
    | Upgrade(r: Recording)
    | Downgrade(r: Recording)
    | EndListed(r: Recording)
    | EndAwaited(r: Recording)
    | EndTaken(r: Recording)

  /** What the loops over the vectors do. */
  datatype LoopStep =
    | StartFlushing
    | FlushTake
    | FlushNext
    | StartShutdown
    | ShutdownTake
    | ShutdownNext
    | StartDisconnecting
    | DisconnectCheck
    | DisconnectTake
    | DisconnectMove
    | Extend
    | StartCleaning(v: Vector)
    | CleanCheck(v: Vector)
    | CleanDrop(v: Vector)
    | CleanJoined(v: Vector)

  datatype Step = ByPython(p: PythonStep) | ByImporter(i: ImporterStep) | ByLoop(l: LoopStep)

  function OwnerOf(b: Bridge, r: Recording): Owner {
    if r in b.owner then b.owner[r] else Unborn
  }

  function Other(v: Vector): Vector {
    if v == All then Orphaned else All
  }

  function ListOf(b: Bridge, v: Vector): seq<Recording> {
    if v == All then b.all else b.orphaned
  }

  function LockOf(b: Bridge, v: Vector): Lock {
    if v == All then b.allLock else b.orphanedLock
  }

  function Locked(b: Bridge, v: Vector, lock: Lock): Bridge {
    if v == All then b.(allLock := lock) else b.(orphanedLock := lock)
  }

  /** How many importer threads of `r` have not come to their end. */
  function Running(im: Importers, r: Recording): nat {
    im.listed[r] + im.awaited[r] + im.taken[r]
  }

  function OutsideCount(b: Bridge, r: Recording): nat {
    b.python.slots[r] + b.python.handles[r] + b.importers.transient[r]
  }

  /** `RecordingStream::ref_count`. */
  function RefCount(b: Bridge, r: Recording): nat {
    Count(b.all, r) + Count(b.orphaned, r) + Count(b.moving, r)
    + (if r in b.building then 1 else 0)
    + OutsideCount(b, r)
  }

  /** Python does not hold `r`. */
  predicate Alone(b: Bridge, r: Recording) {
    r !in b.python.handles && r !in b.python.slots
  }

  /** Code that runs on behalf of Python can get at `r`. */
  predicate Reachable(b: Bridge, r: Recording) {
    r in b.building || !Alone(b, r)
  }

  ghost predicate Init(b: Bridge) {
    b == Bridge([], [], [], {}, Python(multiset{}, multiset{}, multiset{}),
      Importers(multiset{}, multiset{}, multiset{}, multiset{}), {}, {}, Free, Free, Calls(0, 0), map[])
  }

  // ----- Python -----

  predicate PythonMay(b: Bridge, step: PythonStep) {
    match step
    case Build(r) => OwnerOf(b, r) == Unborn
    case Register(r) => r in b.building && b.allLock == Free
    case SetSlot(was, to) => (was.Some? ==> was.value in b.python.slots) && (to.Some? ==> Reachable(b, to.value))
    case LeaveThread(was) => was in b.python.slots
    case CloneHandle(r) => Reachable(b, r)
    case DropHandle(r) => b.python.handles[r] > b.python.waiters[r]
    case StartImporter(r) => !Alone(b, r)
    case StartWaiting(r) => b.python.handles[r] > b.python.waiters[r]
    case StopWaiting(r) => r in b.python.waiters && (b.python.waiters[r] > 1 || r !in b.importers.awaited)
    case SetSink(r) => Reachable(b, r)
    case Disconnect(r) => Reachable(b, r)
  }

  function References(r: Option<Recording>): multiset<Recording> {
    match r case None => multiset{} case Some(x) => multiset{x}
  }

  /** `b` after a reference to `r` is gone: dropping the last one frees the recording. */
  function Drop(b: Bridge, r: Recording): Bridge {
    if RefCount(b, r) == 0 then b.(freed := b.freed + {r}, owner := b.owner[r := Gone]) else b
  }

  function Moved(from: multiset<Recording>, to: multiset<Recording>, r: Recording): multiset<Recording> {
    to[r := to[r] + from[r]]
  }

  function AfterPython(b: Bridge, step: PythonStep): Bridge
    requires PythonMay(b, step)
  {
    var p, im := b.python, b.importers;
    match step
    case Build(r) => b.(building := b.building + {r}, owner := b.owner[r := Building])
    case Register(r) =>
      b.(building := b.building - {r}, python := p.(handles := p.handles + multiset{r}),
         all := b.all + [r], owner := b.owner[r := InAll])
    case SetSlot(was, to) =>  // what the slot held is handed back to Python
      b.(python := p.(slots := p.slots - References(was) + References(to), handles := p.handles + References(was)))
    case LeaveThread(was) => Drop(b.(python := p.(slots := p.slots - multiset{was})), was)
    case CloneHandle(r) => b.(python := p.(handles := p.handles + multiset{r}))
    case DropHandle(r) => Drop(b.(python := p.(handles := p.handles - multiset{r})), r)
    case StartImporter(r) => b.(importers := im.(listed := im.listed + multiset{r}))
    case StartWaiting(r) =>
      b.(python := p.(waiters := p.waiters + multiset{r}),
         importers := im.(listed := im.listed[r := 0], awaited := Moved(im.listed, im.awaited, r)))
    case StopWaiting(r) => b.(python := p.(waiters := p.waiters - multiset{r}))
    case SetSink(r) => b.(disconnected := b.disconnected - {r})
    case Disconnect(r) => b.(disconnected := b.disconnected + {r})
  }

  // ----- importers -----

  predicate ImporterMay(b: Bridge, step: ImporterStep) {
    match step
    case Upgrade(r) => Running(b.importers, r) > b.importers.transient[r] && RefCount(b, r) > 0
    case Downgrade(r) => r in b.importers.transient
    case EndListed(r) => r in b.importers.listed && Running(b.importers, r) > b.importers.transient[r]
    case EndAwaited(r) => r in b.importers.awaited && Running(b.importers, r) > b.importers.transient[r]
    case EndTaken(r) => r in b.importers.taken && Running(b.importers, r) > b.importers.transient[r]
  }

  function AfterImporter(b: Bridge, step: ImporterStep): Bridge
    requires ImporterMay(b, step)
  {
    var im := b.importers;
    match step
    case Upgrade(r) => b.(importers := im.(transient := im.transient + multiset{r}))
    case Downgrade(r) => Drop(b.(importers := im.(transient := im.transient - multiset{r})), r)
    case EndListed(r) => b.(importers := im.(listed := im.listed - multiset{r}))
    case EndAwaited(r) => b.(importers := im.(awaited := im.awaited - multiset{r}))
    case EndTaken(r) => b.(importers := im.(taken := im.taken - multiset{r}))
  }

  // ----- loops -----

  function Without(s: seq<Recording>, i: nat): seq<Recording>
    requires i < |s|
  {
    s[..i] + s[i + 1..]
  }

  /** Element `n` of ALL_RECORDINGS followed by ORPHANED_RECORDINGS. */
  function Element(b: Bridge, n: nat): Recording
    requires n < |b.all| + |b.orphaned|
  {
    if n < |b.all| then b.all[n] else b.orphaned[n - |b.all|]
  }

  /** `wait_for_importers` takes the handles that are listed, and then joins them. */
  function Taken(im: Importers, r: Recording): Importers {
    im.(listed := im.listed[r := 0], taken := Moved(im.listed, im.taken, r))
  }

  predicate LoopMay(b: Bridge, step: LoopStep) {
    match step
    case StartFlushing => b.allLock == Free && b.orphanedLock == Free
    case FlushTake => b.allLock.Flushing?
    case FlushNext =>
      && b.allLock.FlushJoining? && b.allLock.next < |b.all| + |b.orphaned|
      && Element(b, b.allLock.next) !in b.importers.taken
    case StartShutdown => b.allLock == Free
    case ShutdownTake => b.allLock.ShuttingDown?
    case ShutdownNext =>
      b.allLock.ShutdownJoining? && b.allLock.next < |b.all| && b.all[b.allLock.next] !in b.importers.taken
    case StartDisconnecting => b.allLock == Free
    case DisconnectCheck => b.allLock.Disconnecting?
    case DisconnectTake => b.allLock.Condemned? && b.allLock.next < |b.all|
    case DisconnectMove =>
      b.allLock.MoveJoining? && b.allLock.next < |b.all| && b.all[b.allLock.next] !in b.importers.taken
    case Extend => b.moving != [] && b.orphanedLock == Free
    case StartCleaning(v) => LockOf(b, v) == Free && if v == All then b.calls.flushed > 0 else b.calls.cleaned > 0
    case CleanCheck(v) => LockOf(b, v).Cleaning?
    case CleanDrop(v) => LockOf(b, v).Removing? && LockOf(b, v).next < |ListOf(b, v)|
    case CleanJoined(v) =>
      && LockOf(b, v).DropJoining? && LockOf(b, v).next < |ListOf(b, v)|
      && ListOf(b, v)[LockOf(b, v).next] !in b.importers.taken
  }

  function AfterFlushTake(b: Bridge): Bridge
    requires b.allLock.Flushing?
  {
    var n := b.allLock.next;
    if n >= |b.all| + |b.orphaned| then
      b.(allLock := Free, orphanedLock := Free, calls := b.calls.(flushed := b.calls.flushed + 1))
    else b.(importers := Taken(b.importers, Element(b, n)), allLock := FlushJoining(n))
  }

  function AfterShutdownTake(b: Bridge): Bridge
    requires b.allLock.ShuttingDown?
  {
    var i := b.allLock.next;
    if i >= |b.all| then b.(allLock := Free)
    else b.(importers := Taken(b.importers, b.all[i]), allLock := ShutdownJoining(i))
  }

  function AfterDisconnectCheck(b: Bridge): Bridge
    requires b.allLock.Disconnecting?
  {
    var i := b.allLock.next;
    if i >= |b.all| then b.(allLock := Free)
    else if RefCount(b, b.all[i]) <= 1 then b.(allLock := Condemned(i))
    else b.(allLock := Disconnecting(i + 1))
  }

  /** A clone goes into `moving` before the vector's own reference goes. */
  function AfterDisconnectMove(b: Bridge): Bridge
    requires b.allLock.MoveJoining? && b.allLock.next < |b.all|
  {
    var i := b.allLock.next;
    var r := b.all[i];
    b.(disconnected := b.disconnected + {r}, moving := b.moving + [r], all := Without(b.all, i),
       allLock := Disconnecting(i), owner := b.owner[r := Moving])
  }

  function AfterExtend(b: Bridge): Bridge
    requires b.moving != []
  {
    var r := b.moving[0];
    b.(moving := b.moving[1..], orphaned := b.orphaned + [r], owner := b.owner[r := InOrphaned])
  }

  function AfterStartCleaning(b: Bridge, v: Vector): Bridge
    requires LoopMay(b, StartCleaning(v))
  {
    if v == All then b.(allLock := Cleaning(0), calls := b.calls.(flushed := b.calls.flushed - 1))
    else b.(orphanedLock := Cleaning(0), calls := b.calls.(cleaned := b.calls.cleaned - 1))
  }

  function CheckedLock(b: Bridge, v: Vector): Lock
    requires LockOf(b, v).Cleaning?
  {
    var i := LockOf(b, v).next;
    if i >= |ListOf(b, v)| then Free
    else if RefCount(b, ListOf(b, v)[i]) > 1 then Cleaning(i + 1)
    else Removing(i)
  }

  function AfterCleanCheck(b: Bridge, v: Vector): Bridge
    requires LockOf(b, v).Cleaning?
  {
    var c := Locked(b, v, CheckedLock(b, v));
    if v == All && CheckedLock(b, v) == Free then c.(calls := c.calls.(cleaned := c.calls.cleaned + 1)) else c
  }

  /** Element `i` leaves its vector for good. */
  function TakenOut(b: Bridge, v: Vector, i: nat): Bridge
    requires i < |ListOf(b, v)|
  {
    var r, rest := ListOf(b, v)[i], Without(ListOf(b, v), i);
    var c := Locked(if v == All then b.(all := rest) else b.(orphaned := rest), v, Cleaning(i));
    if RefCount(c, r) == 0 then Drop(c, r) else c.(owner := c.owner[r := Adrift])
  }

  /** `Drop for RecordingStream` waits for importers only if it reads a count of 1. */
  function AfterCleanDrop(b: Bridge, v: Vector): Bridge
    requires LockOf(b, v).Removing? && LockOf(b, v).next < |ListOf(b, v)|
  {
    var i := LockOf(b, v).next;
    var r := ListOf(b, v)[i];
    if RefCount(b, r) == 1 then Locked(b.(importers := Taken(b.importers, r)), v, DropJoining(i))
    else TakenOut(b, v, i)
  }

  function AfterLoop(b: Bridge, step: LoopStep): Bridge
    requires LoopMay(b, step)
  {
    match step
    case StartFlushing => b.(allLock := Flushing(0), orphanedLock := Lent)
    case FlushTake => AfterFlushTake(b)
    case FlushNext => b.(allLock := Flushing(b.allLock.next + 1))
    case StartShutdown => b.(allLock := ShuttingDown(0))
    case ShutdownTake => AfterShutdownTake(b)
    case ShutdownNext =>
      b.(disconnected := b.disconnected + {b.all[b.allLock.next]}, allLock := ShuttingDown(b.allLock.next + 1))
    case StartDisconnecting => b.(allLock := Disconnecting(0))
    case DisconnectCheck => AfterDisconnectCheck(b)
    case DisconnectTake =>
      b.(importers := Taken(b.importers, b.all[b.allLock.next]), allLock := MoveJoining(b.allLock.next))
    case DisconnectMove => AfterDisconnectMove(b)
    case Extend => AfterExtend(b)
    case StartCleaning(v) => AfterStartCleaning(b, v)
    case CleanCheck(v) => AfterCleanCheck(b, v)
    case CleanDrop(v) => AfterCleanDrop(b, v)
    case CleanJoined(v) => TakenOut(b, v, LockOf(b, v).next)
  }

  // ----- all threads -----

  predicate Enabled(b: Bridge, step: Step) {
    match step
    case ByPython(p) => PythonMay(b, p)
    case ByImporter(i) => ImporterMay(b, i)
    case ByLoop(l) => LoopMay(b, l)
  }

  function Apply(b: Bridge, step: Step): Bridge
    requires Enabled(b, step)
  {
    match step
    case ByPython(p) => AfterPython(b, p)
    case ByImporter(i) => AfterImporter(b, i)
    case ByLoop(l) => AfterLoop(b, l)
  }

  function Next(b: Bridge, step: Step): Option<Bridge> {
    if Enabled(b, step) then Some(Apply(b, step)) else None
  }
}
