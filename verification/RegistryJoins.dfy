/** Runs in which importers give back what they hold and come to their end, and the flush loop when
    no other thread interferes. */
module RegistryJoins {
  import opened Graphs
  import opened Runs
  import opened Registry
  import opened RegistryInvariant

  // ----- one more step -----

  lemma {:induction false} AlsoLoop(b: Bridge, steps: seq<Step>, c: Bridge, step: LoopStep)
    requires Leads(Next, b, steps, c) && LoopMay(c, step) && Inv(c)
    ensures Leads(Next, b, steps + [ByLoop(step)], AfterLoop(c, step)) && Inv(AfterLoop(c, step))
  {
    LoopKeepsInv(c, step);
    assert Next(c, ByLoop(step)) == Some(AfterLoop(c, step));
    LeadsOneMore(Next, b, steps, c, ByLoop(step), AfterLoop(c, step));
  }

  lemma {:induction false} AlsoPython(b: Bridge, steps: seq<Step>, c: Bridge, step: PythonStep)
    requires Leads(Next, b, steps, c) && PythonMay(c, step) && Inv(c)
    ensures Leads(Next, b, steps + [ByPython(step)], AfterPython(c, step)) && Inv(AfterPython(c, step))
  {
    PythonKeepsInv(c, step);
    assert Next(c, ByPython(step)) == Some(AfterPython(c, step));
    LeadsOneMore(Next, b, steps, c, ByPython(step), AfterPython(c, step));
  }

  lemma {:induction false} AlsoImporter(b: Bridge, steps: seq<Step>, c: Bridge, step: ImporterStep)
    requires Leads(Next, b, steps, c) && ImporterMay(c, step) && Inv(c)
    ensures Leads(Next, b, steps + [ByImporter(step)], AfterImporter(c, step)) && Inv(AfterImporter(c, step))
  {
    ImporterKeepsInv(c, step);
    assert Next(c, ByImporter(step)) == Some(AfterImporter(c, step));
    LeadsOneMore(Next, b, steps, c, ByImporter(step), AfterImporter(c, step));
  }

  // ----- importers let go -----

  function LetGo(b: Bridge, r: Recording): Bridge {
    b.(importers := b.importers.(transient := b.importers.transient[r := 0]))
  }

  lemma OneLetsGo(b: Bridge, r: Recording)
    requires Inv(b) && r in b.importers.transient && !Ownerless(b, r)
    ensures ImporterMay(b, Downgrade(r))
    ensures
      var c := AfterImporter(b, Downgrade(r));
      && c == b.(importers := c.importers) && c.importers.transient[r] < b.importers.transient[r]
      && LetGo(c, r) == LetGo(b, r)
  {
    DowngradeFrees(b, r);
    var c := AfterImporter(b, Downgrade(r));
    assert c.importers.transient[r := 0] == b.importers.transient[r := 0];
  }

  /** The importers of a recording that has an owner give back what they hold. */
  lemma {:induction false} ImportersLetGo(start: Bridge, steps: seq<Step>, b: Bridge, r: Recording)
    returns (more: seq<Step>)
    requires Inv(b) && !Ownerless(b, r) && Leads(Next, start, steps, b)
    ensures Leads(Next, start, more, LetGo(b, r)) && Inv(LetGo(b, r))
    decreases b.importers.transient[r]
  {
    if b.importers.transient[r] == 0 {
      more := steps;
      assert b.importers.transient[r := 0] == b.importers.transient;
    } else {
      OneLetsGo(b, r);
      AlsoImporter(start, steps, b, Downgrade(r));
      more := ImportersLetGo(start, steps + [ByImporter(Downgrade(r))], AfterImporter(b, Downgrade(r)), r);
    }
  }

  // ----- importers end -----

  function TakenEnded(b: Bridge, r: Recording): Bridge {
    b.(importers := b.importers.(taken := b.importers.taken[r := 0]))
  }

  /** The importers of `r` that a loop joins come to their end. */
  lemma {:induction false} TakenEnd(start: Bridge, steps: seq<Step>, b: Bridge, r: Recording) returns (more: seq<Step>)
    requires Inv(b) && r !in b.importers.transient && Leads(Next, start, steps, b)
    ensures Leads(Next, start, more, TakenEnded(b, r)) && Inv(TakenEnded(b, r))
    decreases b.importers.taken[r]
  {
    if b.importers.taken[r] == 0 {
      more := steps;
      assert b.importers.taken[r := 0] == b.importers.taken;
    } else {
      AlsoImporter(start, steps, b, EndTaken(r));
      var c := AfterImporter(b, EndTaken(r));
      assert c.importers.taken[r := 0] == b.importers.taken[r := 0];
      more := TakenEnd(start, steps + [ByImporter(EndTaken(r))], c, r);
    }
  }

  /** The listed handles were taken, and the importers joined. */
  function JoinedIn(im: Importers, r: Recording): Importers {
    im.(listed := im.listed[r := 0], taken := im.taken[r := 0])
  }

  lemma TakenThenJoined(im: Importers, r: Recording)
    ensures Taken(im, r).(taken := Taken(im, r).taken[r := 0]) == JoinedIn(im, r)
  {
    assert Taken(im, r).taken[r := 0] == im.taken[r := 0];
  }

  // ----- the flush loop -----

  function Idle(im: Importers, r: Recording): Importers {
    JoinedIn(im.(transient := im.transient[r := 0]), r)
  }

  /** One element of the flush loop: its importers give back what they hold, their handles are taken,
      and they come to their end. */
  function FlushedOne(c: Bridge): Bridge
    requires c.allLock.Flushing? && c.allLock.next < |c.all| + |c.orphaned|
  {
    c.(importers := Idle(c.importers, Element(c, c.allLock.next)), allLock := Flushing(c.allLock.next + 1))
  }

  lemma ElementHasOwner(b: Bridge, n: nat)
    requires Owned(b) && n < |b.all| + |b.orphaned|
    ensures !Ownerless(b, Element(b, n)) && (Element(b, n) in b.all || Element(b, n) in b.orphaned)
  {
    if n < |b.all| { ListedHasOwner(b, All, n); } else { ListedHasOwner(b, Orphaned, n - |b.all|); }
  }

  lemma {:induction false} FlushJoins(start: Bridge, steps: seq<Step>, c: Bridge, n: nat) returns (more: seq<Step>)
    requires Inv(c) && c.allLock == Flushing(n) && n < |c.all| + |c.orphaned| && Leads(Next, start, steps, c)
    requires Element(c, n) !in c.importers.transient
    ensures
      var d := c.(importers := JoinedIn(c.importers, Element(c, n)), allLock := FlushJoining(n));
      Leads(Next, start, more, d) && Inv(d)
  {
    var r := Element(c, n);
    AlsoLoop(start, steps, c, FlushTake);
    TakenThenJoined(c.importers, r);
    more := TakenEnd(start, steps + [ByLoop(FlushTake)],
      c.(importers := Taken(c.importers, r), allLock := FlushJoining(n)), r);
  }

  lemma FlushNextIs(e: Bridge, n: nat)
    requires e.allLock == FlushJoining(n) && n < |e.all| + |e.orphaned| && Element(e, n) !in e.importers.taken
    ensures LoopMay(e, FlushNext) && AfterLoop(e, FlushNext) == e.(allLock := Flushing(n + 1))
  {
  }

  lemma FlushedOneIs(c: Bridge, n: nat)
    requires c.allLock == Flushing(n) && n < |c.all| + |c.orphaned|
    ensures
      var r := Element(c, n);
      var d := LetGo(c, r);
      var e := d.(importers := JoinedIn(d.importers, r), allLock := FlushJoining(n));
      e.(allLock := Flushing(n + 1)) == FlushedOne(c) && r !in e.importers.taken && Element(e, n) == r
  {
  }

  lemma {:induction false} FlushedOneRuns(start: Bridge, steps: seq<Step>, c: Bridge, n: nat) returns (more: seq<Step>)
    requires Inv(c) && c.allLock == Flushing(n) && n < |c.all| + |c.orphaned| && Leads(Next, start, steps, c)
    ensures Leads(Next, start, more, FlushedOne(c)) && Inv(FlushedOne(c))
  {
    var r := Element(c, n);
    var d := LetGo(c, r);
    ElementHasOwner(c, n);
    more := ImportersLetGo(start, steps, c, r);
    more := FlushJoins(start, more, d, n);
    FlushedOneIs(c, n);
    var e := d.(importers := JoinedIn(d.importers, r), allLock := FlushJoining(n));
    FlushNextIs(e, n);
    AlsoLoop(start, more, e, FlushNext);
    more := more + [ByLoop(FlushNext)];
  }

  /** Importers of the elements in `rs` are joined, all others are as before. */
  ghost predicate Joined(im: Importers, now: Importers, rs: set<Recording>) {
    && now.awaited == im.awaited
    && (forall r :: r in rs ==> now.listed[r] == 0 && now.taken[r] == 0 && now.transient[r] == 0)
    && (forall r :: r !in rs ==>
          now.listed[r] == im.listed[r] && now.taken[r] == im.taken[r] && now.transient[r] == im.transient[r])
  }

  lemma JoinedOneMore(im: Importers, now: Importers, rs: set<Recording>, r: Recording)
    requires Joined(im, now, rs)
    ensures Joined(im, Idle(now, r), rs + {r})
  {
  }

  /** The elements from `n` up to `k`. */
  ghost function Flushed(b: Bridge, n: nat, k: nat): set<Recording>
    requires n <= k <= |b.all| + |b.orphaned|
  {
    set i: nat | n <= i < k :: Element(b, i)
  }

  lemma FlushedOneMore(b: Bridge, n: nat, k: nat)
    requires n <= k < |b.all| + |b.orphaned|
    ensures Flushed(b, n, k + 1) == Flushed(b, n, k) + {Element(b, k)}
  {
    forall r | r in Flushed(b, n, k + 1) ensures r in Flushed(b, n, k) + {Element(b, k)} {
      var i: nat :| n <= i < k + 1 && Element(b, i) == r;
    }
  }

  /** `c` is `b`, which had the flush loop at element `n`, with the elements up to `k` flushed. */
  ghost predicate FlushedTo(b: Bridge, n: nat, k: nat, c: Bridge) {
    && Inv(c) && n <= k <= |b.all| + |b.orphaned|
    && c == b.(importers := c.importers, allLock := Flushing(k), orphanedLock := Lent)
    && Joined(b.importers, c.importers, Flushed(b, n, k))
  }

  lemma FlushOne(b: Bridge, n: nat, k: nat, c: Bridge)
    requires FlushedTo(b, n, k, c) && k < |b.all| + |b.orphaned| && Inv(FlushedOne(c))
    ensures FlushedTo(b, n, k + 1, FlushedOne(c))
  {
    FlushedOneMore(b, n, k);
    JoinedOneMore(b.importers, c.importers, Flushed(b, n, k), Element(b, k));
  }

  /** The locks are free again, and one more call may begin to clean. */
  function FlushEnded(c: Bridge): Bridge {
    c.(allLock := Free, orphanedLock := Free, calls := c.calls.(flushed := c.calls.flushed + 1))
  }

  lemma {:induction false} FlushEndRuns(start: Bridge, steps: seq<Step>, c: Bridge)
    requires Inv(c) && c.allLock == Flushing(|c.all| + |c.orphaned|) && Leads(Next, start, steps, c)
    ensures Leads(Next, start, steps + [ByLoop(FlushTake)], FlushEnded(c)) && Inv(FlushEnded(c))
  {
    AlsoLoop(start, steps, c, FlushTake);
  }

  /** The flush loop goes on from element `n` to the end. */
  lemma {:induction false} FlushRest(start: Bridge, steps: seq<Step>, b: Bridge, n: nat, k: nat, c: Bridge)
    returns (more: seq<Step>, d: Bridge)
    requires FlushedTo(b, n, k, c) && Leads(Next, start, steps, c)
    ensures Leads(Next, start, more, FlushEnded(d)) && Inv(FlushEnded(d))
    ensures FlushedTo(b, n, |b.all| + |b.orphaned|, d)
    decreases |b.all| + |b.orphaned| - k
  {
    if k == |b.all| + |b.orphaned| {
      FlushEndRuns(start, steps, c);
      more, d := steps + [ByLoop(FlushTake)], c;
    } else {
      more := FlushedOneRuns(start, steps, c, k);
      FlushOne(b, n, k, c);
      more, d := FlushRest(start, more, b, n, k + 1, FlushedOne(c));
    }
  }
}
