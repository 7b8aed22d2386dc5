/** The loops over the registries when no other thread interferes, as runs of the steps; importers
    whose handles a loop has taken come to their end while it joins them. */
module RegistryLoops {
  import opened Graphs
  import opened Runs
  import opened Registry
  import opened RegistryInvariant
  import opened RegistryJoins

  /** The elements of `rs` that somebody outside the registries holds, or those that nobody does. */
  function HeldOutside(b: Bridge, rs: seq<Recording>, held: bool): seq<Recording> {
    if rs == [] then []
    else
      var last := rs[|rs| - 1];
      HeldOutside(b, rs[..|rs| - 1], held) + if (OutsideCount(b, last) > 0) == held then [last] else []
  }

  lemma {:induction false} HeldOutsideMembers(b: Bridge, rs: seq<Recording>, held: bool)
    ensures forall r :: r in HeldOutside(b, rs, held) <==> r in rs && (OutsideCount(b, r) > 0) == held
    decreases |rs|
  {
    if rs != [] {
      HeldOutsideMembers(b, rs[..|rs| - 1], held);
      assert rs == rs[..|rs| - 1] + [rs[|rs| - 1]];
    }
  }

  ghost predicate SameOutside(b: Bridge, c: Bridge) {
    && c.python.slots == b.python.slots && c.python.handles == b.python.handles
    && c.importers.transient == b.importers.transient
  }

  lemma {:induction false} HeldOutsideDepends(b: Bridge, c: Bridge, rs: seq<Recording>, held: bool)
    requires SameOutside(b, c)
    ensures HeldOutside(b, rs, held) == HeldOutside(c, rs, held)
    decreases |rs|
  {
    if rs != [] { HeldOutsideDepends(b, c, rs[..|rs| - 1], held); }
  }

  /** A `retain` over `rs` that has come to element `k`: what it has kept, then the rest. */
  function Kept(b: Bridge, rs: seq<Recording>, k: nat): seq<Recording>
    requires k <= |rs|
  {
    HeldOutside(b, rs[..k], true)
  }

  function Removed(b: Bridge, rs: seq<Recording>, k: nat): seq<Recording>
    requires k <= |rs|
  {
    HeldOutside(b, rs[..k], false)
  }

  lemma RetainNext(b: Bridge, rs: seq<Recording>, k: nat, current: seq<Recording>)
    requires k < |rs| && current == Kept(b, rs, k) + rs[k..]
    ensures
      var next := |Kept(b, rs, k)|;
      var held := OutsideCount(b, rs[k]) > 0;
      && next < |current| && current[next] == rs[k]
      && Kept(b, rs, k + 1) == (if held then Kept(b, rs, k) + [rs[k]] else Kept(b, rs, k))
      && Removed(b, rs, k + 1) == (if held then Removed(b, rs, k) else Removed(b, rs, k) + [rs[k]])
      && (if held then current else Without(current, next)) == Kept(b, rs, k + 1) + rs[k + 1..]
  {
    assert rs[..k + 1][..k] == rs[..k];
    var kept := Kept(b, rs, k);
    assert rs[k..] == [rs[k]] + rs[k + 1..];
    assert Without(kept + rs[k..], |kept|) == kept + rs[k + 1..];
    assert kept + [rs[k]] + rs[k + 1..] == kept + rs[k..];
  }

  /** The elements of `rs` that Python holds. */
  function HeldByPython(p: Python, rs: seq<Recording>): seq<Recording> {
    if rs == [] then []
    else
      var last := rs[|rs| - 1];
      HeldByPython(p, rs[..|rs| - 1]) + if last in p.handles || last in p.slots then [last] else []
  }

  /** Without importers that have upgraded, that is all that is held outside. */
  lemma {:induction false} OnlyPythonHolds(b: Bridge, rs: seq<Recording>)
    requires forall r :: r in rs ==> r !in b.importers.transient
    ensures HeldOutside(b, rs, true) == HeldByPython(b.python, rs)
    decreases |rs|
  {
    if rs != [] {
      OnlyPythonHolds(b, rs[..|rs| - 1]);
      assert rs[|rs| - 1] in rs;
    }
  }

  // ----- disconnect_orphaned_recordings -----

  function WithJoined(c: Bridge, r: Recording): Bridge {
    c.(importers := JoinedIn(c.importers, r))
  }

  /** One element of the disconnecting loop: the check, and if the count was 1, `disconnect`, which
      joins the importers, and the move. */
  function DisconnectedOne(c: Bridge): Bridge
    requires c.allLock.Disconnecting? && c.allLock.next < |c.all|
  {
    var i := c.allLock.next;
    if RefCount(c, c.all[i]) <= 1 then AfterDisconnectMove(WithJoined(c, c.all[i]).(allLock := MoveJoining(i)))
    else c.(allLock := Disconnecting(i + 1))
  }

  lemma {:induction false} MovesAway(start: Bridge, steps: seq<Step>, c: Bridge, i: nat) returns (more: seq<Step>)
    requires Inv(c) && c.allLock == Condemned(i) && i < |c.all| && Leads(Next, start, steps, c)
    requires c.all[i] !in c.importers.transient
    ensures
      var d := WithJoined(c, c.all[i]).(allLock := MoveJoining(i));
      Leads(Next, start, more, AfterDisconnectMove(d)) && Inv(AfterDisconnectMove(d))
  {
    var r := c.all[i];
    AlsoLoop(start, steps, c, DisconnectTake);
    TakenThenJoined(c.importers, r);
    more := TakenEnd(start, steps + [ByLoop(DisconnectTake)],
      c.(importers := Taken(c.importers, r), allLock := MoveJoining(i)), r);
    AlsoLoop(start, more, WithJoined(c, r).(allLock := MoveJoining(i)), DisconnectMove);
    more := more + [ByLoop(DisconnectMove)];
  }

  lemma {:induction false} DisconnectedOneRuns(start: Bridge, steps: seq<Step>, c: Bridge, i: nat)
    returns (more: seq<Step>)
    requires Inv(c) && c.allLock == Disconnecting(i) && i < |c.all| && Leads(Next, start, steps, c)
    ensures Leads(Next, start, more, DisconnectedOne(c)) && Inv(DisconnectedOne(c))
  {
    AlsoLoop(start, steps, c, DisconnectCheck);
    more := steps + [ByLoop(DisconnectCheck)];
    if RefCount(c, c.all[i]) <= 1 {
      ListedHasOwner(c, All, i);
      LastReference(c, c.all[i]);
      more := MovesAway(start, more, c.(allLock := Condemned(i)), i);
    }
  }

  /** `c` is `b` with the first `k` elements of `all` scanned by the disconnecting loop. */
  ghost predicate Scanned(b: Bridge, k: nat, c: Bridge) {
    && Inv(c) && SameOutside(b, c) && k <= |b.all|
    && c.orphaned == b.orphaned && c.orphanedLock == b.orphanedLock && c.freed == b.freed
    && c.all == Kept(b, b.all, k) + b.all[k..]
    && c.moving == Removed(b, b.all, k)
    && c.allLock == Disconnecting(|Kept(b, b.all, k)|)
  }

  lemma DisconnectedOneIs(c: Bridge)
    requires c.allLock.Disconnecting? && c.allLock.next < |c.all|
    ensures
      var i, d := c.allLock.next, DisconnectedOne(c);
      var r := c.all[i];
      && SameOutside(c, d) && d.orphaned == c.orphaned && d.orphanedLock == c.orphanedLock && d.freed == c.freed
      && if RefCount(c, r) > 1 then d.all == c.all && d.moving == c.moving && d.allLock == Disconnecting(i + 1)
         else d.all == Without(c.all, i) && d.moving == c.moving + [r] && d.allLock == Disconnecting(i)
  {
  }

  lemma {:induction false} ScannedNext(b: Bridge, k: nat, c: Bridge, d: Bridge, held: bool)
    requires Scanned(b, k, c) && k < |b.all| && Inv(d) && SameOutside(c, d)
    requires held <==> OutsideCount(b, b.all[k]) > 0
    requires d.orphaned == c.orphaned && d.orphanedLock == c.orphanedLock && d.freed == c.freed
    requires c.allLock.next < |c.all|
    requires d.all == if held then c.all else Without(c.all, c.allLock.next)
    requires d.moving == if held then c.moving else c.moving + [b.all[k]]
    requires d.allLock == Disconnecting(if held then c.allLock.next + 1 else c.allLock.next)
    ensures Scanned(b, k + 1, d)
  {
    RetainNext(b, b.all, k, c.all);
  }

  lemma ScanOne(b: Bridge, k: nat, c: Bridge)
    requires Scanned(b, k, c) && k < |b.all|
    requires c.allLock.next < |c.all| && Inv(DisconnectedOne(c))
    ensures Scanned(b, k + 1, DisconnectedOne(c))
  {
    RetainNext(b, b.all, k, c.all);
    ListedHasOwner(c, All, c.allLock.next);
    CountIsOneMoreThanOutside(c, b.all[k]);
    DisconnectedOneIs(c);
    ScannedNext(b, k, c, DisconnectedOne(c), OutsideCount(b, b.all[k]) > 0);
  }

  lemma {:induction false} ScanStart(b: Bridge)
    requires Inv(b) && b.allLock == Free && b.moving == []
    ensures Scanned(b, 0, b.(allLock := Disconnecting(0)))
  {
    StartDisconnectingKeepsInv(b);
    assert Kept(b, b.all, 0) == [] && Removed(b, b.all, 0) == [];
  }

  lemma {:induction false} ScanEnd(b: Bridge, c: Bridge)
    requires Scanned(b, |b.all|, c)
    ensures AfterLoop(c, DisconnectCheck) == c.(allLock := Free)
    ensures c.all == HeldOutside(b, b.all, true) && c.moving == HeldOutside(b, b.all, false)
  {
    assert b.all[..|b.all|] == b.all;
  }

  /** `c` is `b` with some of `moving` appended to the orphans. */
  ghost predicate Extended(b: Bridge, c: Bridge) {
    && Inv(c) && c.orphanedLock == Free
    && c == b.(moving := c.moving, orphaned := c.orphaned, owner := c.owner)
    && c.orphaned + c.moving == b.orphaned + b.moving
  }

  lemma ExtendOne(b: Bridge, c: Bridge)
    requires Extended(b, c) && c.moving != []
    ensures Extended(b, AfterExtend(c))
  {
    ExtendKeepsInv(c);
    assert c.orphaned + c.moving == c.orphaned + [c.moving[0]] + c.moving[1..];
  }

  // ----- the cleaning loops -----

  /** One element of a cleaning loop: the check, and if the count was 1, the drop, which joins the
      recording's importers. */
  function CleanedOne(c: Bridge, v: Vector): Bridge
    requires LockOf(c, v).Cleaning? && LockOf(c, v).next < |ListOf(c, v)|
  {
    var i := LockOf(c, v).next;
    var r := ListOf(c, v)[i];
    if RefCount(c, r) > 1 then Locked(c, v, Cleaning(i + 1))
    else TakenOut(WithJoined(c, r), v, i)
  }

  /** The element the cleaning loop is at has no holder but the vector. */
  ghost predicate AtUnheld(c: Bridge, v: Vector, i: nat) {
    && Inv(c) && i < |ListOf(c, v)| && RefCount(c, ListOf(c, v)[i]) == 1
    && Alone(c, ListOf(c, v)[i]) && ListOf(c, v)[i] !in c.importers.transient
  }

  /** The check finds an element that is held, or one that is not. */
  lemma CheckGoesOn(c: Bridge, v: Vector, i: nat)
    requires LockOf(c, v) == Cleaning(i) && i < |ListOf(c, v)|
    ensures AfterLoop(c, CleanCheck(v)) ==
      Locked(c, v, if RefCount(c, ListOf(c, v)[i]) > 1 then Cleaning(i + 1) else Removing(i))
  {
  }

  /** The lock is set anew when an element is taken out. */
  lemma RelockedTakesOut(c: Bridge, v: Vector, lock: Lock, i: nat)
    requires i < |ListOf(c, v)|
    ensures
      var r := ListOf(c, v)[i];
      var d := Locked(c, v, lock);
      && ListOf(d, v) == ListOf(c, v) && LockOf(d, v) == lock && RefCount(d, r) == RefCount(c, r)
      && d.importers == c.importers && d.python == c.python
  {
  }

  lemma TakenOutUnderAnyLock(c: Bridge, v: Vector, lock: Lock, i: nat)
    requires i < |ListOf(c, v)|
    ensures
      var d := Locked(c, v, lock);
      ListOf(d, v) == ListOf(c, v) && TakenOut(d, v, i) == TakenOut(c, v, i)
  {
  }

  lemma JoinedUnderAnyLock(c: Bridge, v: Vector, lock: Lock, r: Recording)
    ensures WithJoined(Locked(c, v, lock), r) == Locked(WithJoined(c, r), v, lock)
    ensures ListOf(WithJoined(c, r), v) == ListOf(c, v)
  {
  }

  /** The drop reads a count of 1 as well, takes the handles of the importers and joins them. */
  lemma {:induction false} DropJoins(start: Bridge, steps: seq<Step>, c: Bridge, v: Vector, i: nat)
    returns (more: seq<Step>)
    requires AtUnheld(c, v, i) && LockOf(c, v) == Removing(i) && Leads(Next, start, steps, c)
    ensures
      var e := Locked(WithJoined(c, ListOf(c, v)[i]), v, DropJoining(i));
      Leads(Next, start, more, e) && Inv(e)
  {
    var r := ListOf(c, v)[i];
    AlsoLoop(start, steps, c, CleanDrop(v));
    CleanDropIs(c, v);
    TakenThenJoined(c.importers, r);
    var d := Locked(c.(importers := Taken(c.importers, r)), v, DropJoining(i));
    more := TakenEnd(start, steps + [ByLoop(CleanDrop(v))], d, r);
  }

  lemma {:induction false} TakesOutRuns(start: Bridge, steps: seq<Step>, e: Bridge, v: Vector, i: nat)
    requires Inv(e) && LockOf(e, v) == DropJoining(i) && i < |ListOf(e, v)|
    requires ListOf(e, v)[i] !in e.importers.taken && Leads(Next, start, steps, e)
    ensures Leads(Next, start, steps + [ByLoop(CleanJoined(v))], TakenOut(e, v, i)) && Inv(TakenOut(e, v, i))
  {
    AlsoLoop(start, steps, e, CleanJoined(v));
  }

  lemma {:induction false} JoinsAndTakesOut(start: Bridge, steps: seq<Step>, c: Bridge, v: Vector, i: nat)
    returns (more: seq<Step>)
    requires AtUnheld(c, v, i) && LockOf(c, v) == Removing(i) && Leads(Next, start, steps, c)
    ensures
      var d := TakenOut(WithJoined(c, ListOf(c, v)[i]), v, i);
      Leads(Next, start, more, d) && Inv(d)
  {
    var f := WithJoined(c, ListOf(c, v)[i]);
    more := DropJoins(start, steps, c, v, i);
    TakenOutUnderAnyLock(f, v, DropJoining(i), i);
    RelockedTakesOut(f, v, DropJoining(i), i);
    TakesOutRuns(start, more, Locked(f, v, DropJoining(i)), v, i);
    more := more + [ByLoop(CleanJoined(v))];
  }

  lemma {:induction false} RemovesOne(start: Bridge, steps: seq<Step>, c: Bridge, v: Vector, i: nat)
    returns (more: seq<Step>)
    requires AtUnheld(c, v, i) && LockOf(c, v) == Cleaning(i)
    requires Leads(Next, start, steps, Locked(c, v, Removing(i))) && Inv(Locked(c, v, Removing(i)))
    ensures
      var d := TakenOut(WithJoined(c, ListOf(c, v)[i]), v, i);
      Leads(Next, start, more, d) && Inv(d)
  {
    var r := ListOf(c, v)[i];
    RelockedTakesOut(c, v, Removing(i), i);
    JoinedUnderAnyLock(c, v, Removing(i), r);
    TakenOutUnderAnyLock(WithJoined(c, r), v, Removing(i), i);
    more := JoinsAndTakesOut(start, steps, Locked(c, v, Removing(i)), v, i);
  }

  lemma {:induction false} CleanedOneRuns(start: Bridge, steps: seq<Step>, c: Bridge, v: Vector, i: nat)
    returns (more: seq<Step>)
    requires Inv(c) && LockOf(c, v) == Cleaning(i) && i < |ListOf(c, v)| && Leads(Next, start, steps, c)
    ensures Leads(Next, start, more, CleanedOne(c, v)) && Inv(CleanedOne(c, v))
  {
    AlsoLoop(start, steps, c, CleanCheck(v));
    CheckGoesOn(c, v, i);
    more := steps + [ByLoop(CleanCheck(v))];
    if RefCount(c, ListOf(c, v)[i]) <= 1 {
      ListedHasOwner(c, v, i);
      LastReference(c, ListOf(c, v)[i]);
      more := RemovesOne(start, more, c, v, i);
    }
  }

  /** `c` is `b`, which had the cleaning loop at its start, with the first `k` elements scanned. */
  ghost predicate Cleaned(b: Bridge, v: Vector, k: nat, c: Bridge) {
    && Inv(c) && SameOutside(b, c) && k <= |ListOf(b, v)|
    && ListOf(c, v) == Kept(b, ListOf(b, v), k) + ListOf(b, v)[k..]
    && LockOf(c, v) == Cleaning(|Kept(b, ListOf(b, v), k)|)
    && ListOf(c, Other(v)) == ListOf(b, Other(v)) && LockOf(c, Other(v)) == LockOf(b, Other(v))
    && c.calls == b.calls && c.moving == b.moving
    && Gained(b.freed, c.freed, Removed(b, ListOf(b, v), k))
    && OthersRun(b.importers, c.importers, Removed(b, ListOf(b, v), k))
  }

  ghost predicate Gained(before: set<Recording>, now: set<Recording>, removed: seq<Recording>) {
    forall r :: r in now <==> r in before || r in removed
  }

  /** Only importers of removed recordings have come to their end. */
  ghost predicate OthersRun(before: Importers, now: Importers, removed: seq<Recording>) {
    forall r :: r !in removed ==> Running(now, r) == Running(before, r)
  }

  lemma OneMoreRemoved(
    freed: set<Recording>, nowFreed: set<Recording>, im: Importers, now: Importers, removed: seq<Recording>,
    r: Recording)
    requires Gained(freed, nowFreed, removed) && OthersRun(im, now, removed)
    ensures Gained(freed, nowFreed + {r}, removed + [r]) && OthersRun(im, JoinedIn(now, r), removed + [r])
  {
  }

  lemma CleanedOneIs(c: Bridge, v: Vector)
    requires Inv(c) && LockOf(c, v).Cleaning? && LockOf(c, v).next < |ListOf(c, v)|
    ensures
      var i, d := LockOf(c, v).next, CleanedOne(c, v);
      var r := ListOf(c, v)[i];
      && SameOutside(c, d) && ListOf(d, Other(v)) == ListOf(c, Other(v)) && LockOf(d, Other(v)) == LockOf(c, Other(v))
      && d.calls == c.calls && d.moving == c.moving
      && if RefCount(c, r) > 1 then
           && ListOf(d, v) == ListOf(c, v) && LockOf(d, v) == Cleaning(i + 1) && d.freed == c.freed
           && d.importers == c.importers
         else
           && ListOf(d, v) == Without(ListOf(c, v), i) && LockOf(d, v) == Cleaning(i) && d.freed == c.freed + {r}
           && d.importers == JoinedIn(c.importers, r)
  {
    var i := LockOf(c, v).next;
    var r := ListOf(c, v)[i];
    ListedHasOwner(c, v, i);
    LastReference(c, r);
    if RefCount(c, r) <= 1 {
      TakenOutTakesOut(WithJoined(c, r), v, i);
    }
  }

  lemma {:induction false} CleanedNext(b: Bridge, v: Vector, k: nat, c: Bridge, d: Bridge, held: bool)
    requires Cleaned(b, v, k, c) && k < |ListOf(b, v)| && Inv(d) && SameOutside(c, d)
    requires held <==> OutsideCount(b, ListOf(b, v)[k]) > 0
    requires ListOf(d, Other(v)) == ListOf(c, Other(v)) && LockOf(d, Other(v)) == LockOf(c, Other(v))
    requires d.calls == c.calls && d.moving == c.moving
    requires LockOf(c, v).next < |ListOf(c, v)|
    requires ListOf(d, v) == if held then ListOf(c, v) else Without(ListOf(c, v), LockOf(c, v).next)
    requires LockOf(d, v) == Cleaning(if held then LockOf(c, v).next + 1 else LockOf(c, v).next)
    requires d.freed == if held then c.freed else c.freed + {ListOf(b, v)[k]}
    requires d.importers == if held then c.importers else JoinedIn(c.importers, ListOf(b, v)[k])
    ensures Cleaned(b, v, k + 1, d)
  {
    RetainNext(b, ListOf(b, v), k, ListOf(c, v));
    if !held {
      OneMoreRemoved(b.freed, c.freed, b.importers, c.importers, Removed(b, ListOf(b, v), k), ListOf(b, v)[k]);
    }
  }

  lemma CleanOne(b: Bridge, v: Vector, k: nat, c: Bridge)
    requires Cleaned(b, v, k, c) && k < |ListOf(b, v)|
    requires LockOf(c, v).next < |ListOf(c, v)| && Inv(CleanedOne(c, v))
    ensures Cleaned(b, v, k + 1, CleanedOne(c, v))
  {
    RetainNext(b, ListOf(b, v), k, ListOf(c, v));
    ListedHasOwner(c, v, LockOf(c, v).next);
    CountIsOneMoreThanOutside(c, ListOf(b, v)[k]);
    CleanedOneIs(c, v);
    CleanedNext(b, v, k, c, CleanedOne(c, v), OutsideCount(b, ListOf(b, v)[k]) > 0);
  }

  lemma CleanStart(b: Bridge, v: Vector)
    requires Inv(b) && LockOf(b, v) == Cleaning(0)
    ensures Cleaned(b, v, 0, b)
  {
    assert Kept(b, ListOf(b, v), 0) == [] && Removed(b, ListOf(b, v), 0) == [];
  }

  lemma {:induction false} CleanStep(start: Bridge, steps: seq<Step>, b: Bridge, v: Vector, k: nat, c: Bridge)
    returns (more: seq<Step>)
    requires Cleaned(b, v, k, c) && k < |ListOf(b, v)| && Leads(Next, start, steps, c)
    ensures LockOf(c, v).Cleaning? && LockOf(c, v).next < |ListOf(c, v)|
    ensures Leads(Next, start, more, CleanedOne(c, v)) && Cleaned(b, v, k + 1, CleanedOne(c, v))
  {
    RetainNext(b, ListOf(b, v), k, ListOf(c, v));
    more := CleanedOneRuns(start, steps, c, v, LockOf(c, v).next);
    CleanOne(b, v, k, c);
  }

  function CleanEnded(c: Bridge, v: Vector): Bridge {
    if v == All then c.(allLock := Free, calls := c.calls.(cleaned := c.calls.cleaned + 1))
    else c.(orphanedLock := Free)
  }

  /** `c` is `b` with one of the vectors cleaned: freed is exactly what nobody outside holds. */
  ghost predicate CleansUp(b: Bridge, v: Vector, c: Bridge) {
    && SameOutside(b, c)
    && ListOf(c, v) == HeldOutside(b, ListOf(b, v), true) && LockOf(c, v) == Free
    && ListOf(c, Other(v)) == ListOf(b, Other(v)) && LockOf(c, Other(v)) == LockOf(b, Other(v))
    && (forall r :: r in c.freed <==> r in b.freed || (r in ListOf(b, v) && OutsideCount(b, r) == 0))
    && if v == All then c.calls.flushed + 1 == b.calls.flushed && c.calls.cleaned == b.calls.cleaned + 1
       else c.calls.flushed == b.calls.flushed && c.calls.cleaned + 1 == b.calls.cleaned
  }

  lemma CheckedEnds(c: Bridge, v: Vector)
    requires LockOf(c, v).Cleaning? && LockOf(c, v).next >= |ListOf(c, v)|
    ensures AfterLoop(c, CleanCheck(v)) == CleanEnded(c, v)
  {
  }

  lemma CleanEndIs(c: Bridge, v: Vector)
    ensures
      var d := CleanEnded(c, v);
      && SameOutside(c, d) && ListOf(d, v) == ListOf(c, v) && LockOf(d, v) == Free && d.freed == c.freed
      && ListOf(d, Other(v)) == ListOf(c, Other(v)) && LockOf(d, Other(v)) == LockOf(c, Other(v))
      && d.calls == if v == All then c.calls.(cleaned := c.calls.cleaned + 1) else c.calls
  {
  }

  /** What the loop has achieved when it has scanned the whole vector. */
  lemma {:induction false} ScannedAll(b: Bridge, v: Vector, c: Bridge)
    requires Cleaned(b, v, |ListOf(b, v)|, c)
    ensures ListOf(c, v) == HeldOutside(b, ListOf(b, v), true)
    ensures LockOf(c, v) == Cleaning(|ListOf(c, v)|)
    ensures forall r :: r in c.freed <==> r in b.freed || (r in ListOf(b, v) && OutsideCount(b, r) == 0)
  {
    assert ListOf(b, v)[..|ListOf(b, v)|] == ListOf(b, v);
    HeldOutsideMembers(b, ListOf(b, v), false);
  }

  lemma StartedCleaning(b: Bridge, v: Vector)
    requires LoopMay(b, StartCleaning(v))
    ensures
      var c := AfterStartCleaning(b, v);
      && SameOutside(b, c) && LockOf(c, v) == Cleaning(0) && ListOf(c, v) == ListOf(b, v) && c.freed == b.freed
      && ListOf(c, Other(v)) == ListOf(b, Other(v)) && LockOf(c, Other(v)) == LockOf(b, Other(v))
      && if v == All then c.calls.flushed + 1 == b.calls.flushed && c.calls.cleaned == b.calls.cleaned
         else c.calls.flushed == b.calls.flushed && c.calls.cleaned + 1 == b.calls.cleaned
  {
  }

  lemma {:induction false} Composed(start: Bridge, b: Bridge, v: Vector, c: Bridge, d: Bridge)
    requires SameOutside(start, b) && SameOutside(b, c) && SameOutside(c, d)
    requires ListOf(b, v) == ListOf(start, v) && b.freed == start.freed && d.freed == c.freed && LockOf(d, v) == Free
    requires ListOf(d, v) == ListOf(c, v) == HeldOutside(b, ListOf(b, v), true)
    requires forall r :: r in c.freed <==> r in b.freed || (r in ListOf(b, v) && OutsideCount(b, r) == 0)
    requires ListOf(d, Other(v)) == ListOf(start, Other(v)) && LockOf(d, Other(v)) == LockOf(start, Other(v))
    requires
      if v == All then d.calls.flushed + 1 == start.calls.flushed && d.calls.cleaned == start.calls.cleaned + 1
      else d.calls.flushed == start.calls.flushed && d.calls.cleaned + 1 == start.calls.cleaned
    ensures CleansUp(start, v, d)
  {
    HeldOutsideDepends(start, b, ListOf(b, v), true);
  }

  lemma {:induction false} CleanedUp(start: Bridge, v: Vector, c: Bridge)
    requires LoopMay(start, StartCleaning(v))
    requires Cleaned(AfterStartCleaning(start, v), v, |ListOf(AfterStartCleaning(start, v), v)|, c)
    ensures CleansUp(start, v, CleanEnded(c, v))
  {
    var b := AfterStartCleaning(start, v);
    StartedCleaning(start, v);
    ScannedAll(b, v, c);
    CleanEndIs(c, v);
    Composed(start, b, v, c, CleanEnded(c, v));
  }

  lemma {:induction false} CleanBegins(start: Bridge, v: Vector)
    requires Inv(start) && LoopMay(start, StartCleaning(v))
    ensures
      var b := AfterStartCleaning(start, v);
      Leads(Next, start, [ByLoop(StartCleaning(v))], b) && Inv(b) && Cleaned(b, v, 0, b)
  {
    assert Leads(Next, start, [], start);
    AlsoLoop(start, [], start, StartCleaning(v));
    assert [] + [ByLoop(StartCleaning(v))] == [ByLoop(StartCleaning(v))];
    StartedCleaning(start, v);
    CleanStart(AfterStartCleaning(start, v), v);
  }

  lemma {:induction false} CleanEnds(start: Bridge, steps: seq<Step>, b: Bridge, v: Vector, c: Bridge)
    requires Cleaned(b, v, |ListOf(b, v)|, c) && Leads(Next, start, steps, c)
    ensures Leads(Next, start, steps + [ByLoop(CleanCheck(v))], CleanEnded(c, v)) && Inv(CleanEnded(c, v))
  {
    ScannedAll(b, v, c);
    CheckedEnds(c, v);
    AlsoLoop(start, steps, c, CleanCheck(v));
  }

  // ----- the whole call -----

  /** The global slot is emptied and what it held is dropped. */
  function Cleared(b: Bridge, current: Option<Recording>): Bridge {
    b.(python := b.python.(slots := b.python.slots - References(current)))
  }

  lemma SlotEmptied(p: Python, g: Recording)
    ensures p.slots - References(Some(g)) + References(None) == p.slots - multiset{g}
    ensures p.handles + multiset{g} - multiset{g} == p.handles && p.slots - References(None) == p.slots
  {
  }

  lemma {:induction false} ClearedRuns(b: Bridge, current: Option<Recording>) returns (steps: seq<Step>)
    requires Inv(b) && (current.Some? ==> current.value in b.python.slots)
    ensures Leads(Next, b, steps, Cleared(b, current)) && Inv(Cleared(b, current))
  {
    match current
    case None =>
      steps := [];
      assert b.python.slots - multiset{} == b.python.slots;
    case Some(g) =>
      SlotEmptied(b.python, g);
      AlsoPython(b, [], b, SetSlot(Some(g), None));
      steps := [] + [ByPython(SetSlot(Some(g), None))];
      var c := AfterPython(b, SetSlot(Some(g), None));
      assert b.python.waiters[g] <= b.python.handles[g];
      AlsoPython(b, steps, c, DropHandle(g));
      DropHandleIs(c, g);
      steps := steps + [ByPython(DropHandle(g))];
  }

  /** What the two cleaning loops free, by what the flush loop has left. */
  lemma {:induction false} NothingButPython(b: Bridge)
    requires Inv(b) && forall r :: r in b.all ==> r !in b.importers.transient
    ensures HeldOutside(b, b.all, true) == HeldByPython(b.python, b.all)
    ensures forall r :: r in b.all ==> (OutsideCount(b, r) == 0 <==> Alone(b, r))
  {
    OnlyPythonHolds(b, b.all);
  }

  lemma {:induction false} NoneHeldOutside(b: Bridge, rs: seq<Recording>)
    requires forall r :: r in rs ==> OutsideCount(b, r) == 0
    ensures HeldOutside(b, rs, true) == []
    decreases |rs|
  {
    if rs != [] {
      NoneHeldOutside(b, rs[..|rs| - 1]);
      assert rs[|rs| - 1] in rs;
    }
  }

  /** Every orphan goes. */
  lemma {:induction false} OrphansAllGo(b: Bridge)
    requires Inv(b)
    ensures HeldOutside(b, b.orphaned, true) == []
    ensures forall r :: r in b.orphaned ==> OutsideCount(b, r) == 0 && Alone(b, r)
  {
    forall r | r in b.orphaned ensures OutsideCount(b, r) == 0 && Alone(b, r) {
      OrphansAreAlone(b, r);
      NotRunning(b, r);
    }
    NoneHeldOutside(b, b.orphaned);
  }

  lemma ListedAreFlushed(b: Bridge)
    ensures Flushed(b, 0, |b.all| + |b.orphaned|) == set r | r in b.all + b.orphaned
  {
    var n := |b.all| + |b.orphaned|;
    forall r | r in b.all || r in b.orphaned ensures r in Flushed(b, 0, n) {
      if r in b.all {
        var i: nat :| i < |b.all| && b.all[i] == r;
        assert Element(b, i) == r;
      } else {
        var i: nat :| i < |b.orphaned| && b.orphaned[i] == r;
        assert Element(b, |b.all| + i) == r;
      }
    }
  }

  lemma {:induction false} FlushBegins(b: Bridge)
    requires Inv(b) && b.allLock == Free && b.orphanedLock == Free
    ensures
      var c := b.(allLock := Flushing(0), orphanedLock := Lent);
      Leads(Next, b, [ByLoop(StartFlushing)], c) && FlushedTo(b, 0, 0, c)
  {
    assert Leads(Next, b, [], b);
    AlsoLoop(b, [], b, StartFlushing);
    assert [] + [ByLoop(StartFlushing)] == [ByLoop(StartFlushing)];
  }

  lemma {:induction false} FlushStepRuns(start: Bridge, steps: seq<Step>, b: Bridge, n: nat, k: nat, c: Bridge)
    returns (more: seq<Step>)
    requires FlushedTo(b, n, k, c) && k < |b.all| + |b.orphaned| && Leads(Next, start, steps, c)
    ensures Leads(Next, start, more, FlushedOne(c)) && FlushedTo(b, n, k + 1, FlushedOne(c))
  {
    more := FlushedOneRuns(start, steps, c, k);
    FlushOne(b, n, k, c);
  }

  /** `c` is `b` with all listed recordings flushed. */
  ghost predicate Flushes(b: Bridge, c: Bridge) {
    && c == b.(importers := c.importers, calls := b.calls.(flushed := b.calls.flushed + 1))
    && Joined(b.importers, c.importers, set r | r in b.all + b.orphaned)
  }

  lemma {:induction false} FlushEnds(start: Bridge, steps: seq<Step>, b: Bridge, c: Bridge)
    requires FlushedTo(b, 0, |b.all| + |b.orphaned|, c) && Leads(Next, start, steps, c)
    requires b.allLock == Free && b.orphanedLock == Free
    ensures Leads(Next, start, steps + [ByLoop(FlushTake)], FlushEnded(c)) && Inv(FlushEnded(c))
    ensures Flushes(b, FlushEnded(c))
  {
    FlushEndRuns(start, steps, c);
    ListedAreFlushed(b);
  }

  lemma {:induction false} NoneUpgraded(b: Bridge, c: Bridge)
    requires Flushes(b, c)
    ensures forall r :: r in c.all ==> r !in c.importers.transient
  {
    forall r | r in c.all ensures r !in c.importers.transient {
      assert r in b.all + b.orphaned;
    }
  }

  /** The first loop has kept what Python holds, and freed the rest. */
  lemma {:induction false} FirstLoopFrees(cleared: Bridge, flushed: Bridge, cleaned: Bridge)
    requires Inv(flushed) && Flushes(cleared, flushed) && CleansUp(flushed, All, cleaned)
    ensures cleaned.all == HeldByPython(cleared.python, cleared.all)
    ensures forall r :: r in cleaned.freed <==> r in cleared.freed || (r in cleared.all && Alone(cleared, r))
  {
    NoneUpgraded(cleared, flushed);
    NothingButPython(flushed);
  }

  /** The second loop has freed all orphans. */
  lemma {:induction false} SecondLoopFrees(cleaned: Bridge, c: Bridge)
    requires Inv(cleaned) && CleansUp(cleaned, Orphaned, c)
    ensures c.orphaned == [] && forall r :: r in c.freed <==> r in cleaned.freed || r in cleaned.orphaned
  {
    OrphansAllGo(cleaned);
  }

  lemma KeptByLoop(b: Bridge, v: Vector, c: Bridge)
    requires CleansUp(b, v, c)
    ensures c.python.slots == b.python.slots && c.python.handles == b.python.handles && LockOf(c, v) == Free
    ensures v == All ==>
      c.orphaned == b.orphaned && c.orphanedLock == b.orphanedLock && c.calls.flushed + 1 == b.calls.flushed
      && c.calls.cleaned == b.calls.cleaned + 1
    ensures v == Orphaned ==>
      c.all == b.all && c.allLock == b.allLock && c.calls.flushed == b.calls.flushed
      && c.calls.cleaned + 1 == b.calls.cleaned
  {
  }

  /** `c` is `b` after the call: the listed recordings that Python holds in no object and in no slot,
      once the global one is empty, are freed, and no orphan is left. */
  ghost predicate FreesGivenUp(b: Bridge, current: Option<Recording>, c: Bridge) {
    && c.python.slots == b.python.slots - References(current) && c.python.handles == b.python.handles
    && c.all == HeldByPython(c.python, b.all) && c.orphaned == []
    && (forall r :: r in c.freed <==> r in b.freed || ((r in b.all || r in b.orphaned) && Alone(c, r)))
    && c.allLock == Free && c.orphanedLock == Free && c.calls == b.calls
  }

  lemma {:induction false} HeldByPythonDepends(p: Python, q: Python, rs: seq<Recording>)
    requires p.slots == q.slots && p.handles == q.handles
    ensures HeldByPython(p, rs) == HeldByPython(q, rs)
    decreases |rs|
  {
    if rs != [] { HeldByPythonDepends(p, q, rs[..|rs| - 1]); }
  }

  /** What the whole call has achieved, from what its parts have. */
  lemma {:induction false} CallFrees(
    b: Bridge, current: Option<Recording>, flushed: Bridge, cleaned: Bridge, c: Bridge)
    requires Inv(b) && Inv(flushed) && Inv(cleaned) && Flushes(Cleared(b, current), flushed)
    requires CleansUp(flushed, All, cleaned) && CleansUp(cleaned, Orphaned, c)
    ensures FreesGivenUp(b, current, c)
  {
    FirstLoopFrees(Cleared(b, current), flushed, cleaned);
    SecondLoopFrees(cleaned, c);
    KeptByLoop(flushed, All, cleaned);
    KeptByLoop(cleaned, Orphaned, c);
    HeldByPythonDepends(Cleared(b, current).python, c.python, b.all);
    OrphansAllGo(b);
  }

  lemma {:induction false} LeadsOnTwice(b: Bridge, first: seq<Step>, c: Bridge, second: seq<Step>, d: Bridge,
    third: seq<Step>, e: Bridge)
    requires Leads(Next, b, first, c) && Leads(Next, c, second, d) && Leads(Next, d, third, e)
    ensures Leads(Next, b, first + second + third, e)
  {
    LeadsOn(Next, b, first, c, second, d);
    LeadsOn(Next, b, first + second, d, third, e);
  }

  // ----- the registries as an object -----

  /** Each method is a run of the steps, and its contract says where that run ends. */
  class Registries {
    var state: Bridge

    constructor ()
      ensures Init(state)
    {
      state := Bridge([], [], [], {}, Python(multiset{}, multiset{}, multiset{}),
        Importers(multiset{}, multiset{}, multiset{}, multiset{}), {}, {}, Free, Free, Calls(0, 0), map[]);
    }

    /** The loop of `disconnect_orphaned_recordings` over ALL_RECORDINGS. */
    method ScanAll() returns (ghost steps: seq<Step>)
      requires Inv(state) && state.allLock == Free && state.moving == []
      modifies this
      ensures Leads(Next, old(state), steps, state) && Inv(state) && SameOutside(old(state), state)
      ensures state.all == HeldOutside(old(state), old(state).all, true)
      ensures state.moving == HeldOutside(old(state), old(state).all, false)
      ensures state.orphaned == old(state).orphaned && state.freed == old(state).freed
      ensures state.allLock == Free && state.orphanedLock == old(state).orphanedLock
    {
      var b := state;
      ScanStart(b);
      AlsoLoop(b, [], b, StartDisconnecting);
      steps := [] + [ByLoop(StartDisconnecting)];
      state := b.(allLock := Disconnecting(0));
      for k := 0 to |b.all|
        invariant Scanned(b, k, state) && Leads(Next, b, steps, state)
      {
        RetainNext(b, b.all, k, state.all);
        steps := DisconnectedOneRuns(b, steps, state, state.allLock.next);
        ScanOne(b, k, state);
        state := DisconnectedOne(state);
      }
      ScanEnd(b, state);
      AlsoLoop(b, steps, state, DisconnectCheck);
      steps := steps + [ByLoop(DisconnectCheck)];
      state := state.(allLock := Free);
    }

    /** `orphaned_recordings().extend(orphaned)` */
    method ExtendAll() returns (ghost steps: seq<Step>)
      requires Inv(state) && state.orphanedLock == Free
      modifies this
      ensures Leads(Next, old(state), steps, state) && Inv(state)
      ensures state == old(state).(
        moving := [], orphaned := old(state).orphaned + old(state).moving, owner := state.owner)
    {
      ghost var b := state;
      steps := [];
      while state.moving != []
        invariant Extended(b, state) && Leads(Next, b, steps, state)
        decreases |state.moving|
      {
        ExtendOne(b, state);
        AlsoLoop(b, steps, state, Extend);
        steps := steps + [ByLoop(Extend)];
        state := AfterExtend(state);
      }
    }

    /** `disconnect_orphaned_recordings`: what nobody outside holds moves to the orphans in order,
        everything else stays. */
    method DisconnectOrphaned() returns (ghost steps: seq<Step>)
      requires Inv(state) && state.allLock == Free && state.orphanedLock == Free && state.moving == []
      modifies this
      ensures Leads(Next, old(state), steps, state) && Inv(state)
      ensures state.all == HeldOutside(old(state), old(state).all, true)
      ensures state.orphaned == old(state).orphaned + HeldOutside(old(state), old(state).all, false)
      ensures state.moving == [] && state.allLock == Free && state.freed == old(state).freed
    {
      ghost var b := state;
      steps := ScanAll();
      ghost var scanned := state;
      ghost var more := ExtendAll();
      LeadsOn(Next, b, steps, scanned, more, state);
      steps := steps + more;
    }

    /** The flush loop: every listed recording is left without listed importers, and without any that
        has upgraded its reference. */
    method Flush() returns (ghost steps: seq<Step>)
      requires Inv(state) && state.allLock == Free && state.orphanedLock == Free
      modifies this
      ensures Leads(Next, old(state), steps, state) && Inv(state) && Flushes(old(state), state)
    {
      var b := state;
      FlushBegins(b);
      steps := [ByLoop(StartFlushing)];
      state := b.(allLock := Flushing(0), orphanedLock := Lent);
      for k := 0 to |b.all| + |b.orphaned|
        invariant FlushedTo(b, 0, k, state) && Leads(Next, b, steps, state)
      {
        steps := FlushStepRuns(b, steps, b, 0, k, state);
        state := FlushedOne(state);
      }
      FlushEnds(b, steps, b, state);
      steps := steps + [ByLoop(FlushTake)];
      state := FlushEnded(state);
    }

    /** One of the two cleaning loops: it frees exactly what nobody outside holds. */
    method Clean(v: Vector) returns (ghost steps: seq<Step>)
      requires Inv(state) && LoopMay(state, StartCleaning(v))
      modifies this
      ensures Leads(Next, old(state), steps, state) && Inv(state) && CleansUp(old(state), v, state)
    {
      ghost var start := state;
      CleanBegins(state, v);
      steps := [ByLoop(StartCleaning(v))];
      state := AfterStartCleaning(state, v);
      var b := state;
      for k := 0 to |ListOf(b, v)|
        invariant Cleaned(b, v, k, state) && Leads(Next, start, steps, state)
      {
        steps := CleanStep(start, steps, b, v, k, state);
        state := CleanedOne(state, v);
      }
      CleanedUp(start, v, state);
      CleanEnds(start, steps, b, v, state);
      steps := steps + [ByLoop(CleanCheck(v))];
      state := CleanEnded(state, v);
    }

    /** The two cleaning loops, one after the other. */
    method CleanBoth() returns (ghost steps: seq<Step>, ghost cleaned: Bridge)
      requires Inv(state) && state.allLock == Free && state.orphanedLock == Free && state.calls.flushed > 0
      modifies this
      ensures Leads(Next, old(state), steps, state) && Inv(state) && Inv(cleaned)
      ensures CleansUp(old(state), All, cleaned) && CleansUp(cleaned, Orphaned, state)
    {
      ghost var b := state;
      steps := Clean(All);
      cleaned := state;
      ghost var more := Clean(Orphaned);
      LeadsOn(Next, b, steps, cleaned, more, state);
      steps := steps + more;
    }

    /** `flush_and_cleanup_orphaned_recordings`; `current` is what the global data slot holds. */
    method FlushAndCleanup(current: Option<Recording>) returns (ghost steps: seq<Step>)
      requires Inv(state) && state.allLock == Free && state.orphanedLock == Free
      requires current.Some? ==> current.value in state.python.slots
      modifies this
      ensures Leads(Next, old(state), steps, state) && Inv(state) && FreesGivenUp(old(state), current, state)
    {
      ghost var b := state;
      ghost var first := ClearedRuns(b, current);
      state := Cleared(state, current);
      ghost var second := Flush();
      ghost var flushed := state;
      ghost var third, cleaned := CleanBoth();
      LeadsOnTwice(b, first, Cleared(b, current), second, flushed, third, state);
      CallFrees(b, current, flushed, cleaned, state);
      steps := first + second + third;
    }
  }
}
