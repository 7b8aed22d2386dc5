/** Over whole runs recordings only move on from one owner to the next, and ALL_RECORDINGS stays in the
    order of registration. */
module RegistryOrder {
  import opened Graphs
  import opened Runs
  import opened Registry
  import opened RegistryInvariant
  import opened RegistryRuns
  import opened RegistryPasses

  function Rank(o: Owner): nat {
    match o
    case Unborn => 0
    case Building => 1
    case InAll => 2
    case Moving => 3
    case InOrphaned => 4
    case Adrift => 5
    case Gone => 6
  }

  lemma LoopMovesOn(b: Bridge, step: LoopStep, r: Recording)
    requires Inv(b) && LoopMay(b, step)
    ensures Rank(OwnerOf(b, r)) <= Rank(OwnerAfterLoop(b, step, r))
  {
    match step
    case DisconnectMove => ListedHasOwner(b, All, b.allLock.next);
    case Extend => assert b.moving[0] in b.moving;
    case CleanDrop(v) => ListedHasOwner(b, v, LockOf(b, v).next);
    case _ =>
  }

  lemma {:induction false} StepMovesOn(b: Bridge, step: Step, r: Recording)
    requires Inv(b) && Enabled(b, step)
    ensures Rank(OwnerOf(b, r)) <= Rank(OwnerOf(Apply(b, step), r))
  {
    OwnerAfterStep(b, step, r);
    match step
    case ByPython(p) =>
    case ByImporter(_) =>
    case ByLoop(l) => LoopMovesOn(b, l, r);
  }

  /** From a local to ALL_RECORDINGS, to the orphans, to nobody: a recording never goes back. */
  lemma {:induction false} OwnersMoveOn(b: Bridge, steps: seq<Step>, c: Bridge, r: Recording)
    requires Inv(b) && Leads(Next, b, steps, c)
    ensures Inv(c) && Rank(OwnerOf(b, r)) <= Rank(OwnerOf(c, r))
    decreases |steps|
  {
    if steps != [] {
      StepKeepsInv(b, steps[0]);
      StepMovesOn(b, steps[0], r);
      OwnersMoveOn(Apply(b, steps[0]), steps[1..], c, r);
    }
  }

  // ----- the order of the list -----

  /** What is left of `before` is in its order, in front of what is new. */
  ghost predicate InOrder(before: seq<Recording>, now: seq<Recording>) {
    && (forall i, j :: 0 <= i < j < |now| && now[j] in before ==> now[i] in before)
    && (forall i, j, k, m ::
          0 <= i < j < |now| && 0 <= k < |before| && 0 <= m < |before| && now[i] == before[k] && now[j] == before[m] ==>
            k < m)
  }

  /** `now` is `before`, or that with one element less. */
  ghost predicate AtMostOneLess(before: seq<Recording>, now: seq<Recording>) {
    now == before || exists i :: 0 <= i < |before| && now == Without(before, i)
  }

  lemma LessIsInOrder(first: seq<Recording>, before: seq<Recording>, now: seq<Recording>)
    requires InOrder(first, before) && AtMostOneLess(before, now)
    ensures InOrder(first, now)
  {
    if now != before {
      var x :| 0 <= x < |before| && now == Without(before, x);
      RemovedInOrder(first, before, x);
    }
  }

  lemma AppendedInOrder(first: seq<Recording>, before: seq<Recording>, r: Recording)
    requires InOrder(first, before) && r !in first
    ensures InOrder(first, before + [r])
  {
  }

  lemma RemovedInOrder(first: seq<Recording>, before: seq<Recording>, x: nat)
    requires InOrder(first, before) && x < |before|
    ensures InOrder(first, Without(before, x))
  {
    var now := Without(before, x);
    assert forall i :: 0 <= i < |now| ==> now[i] == before[if i < x then i else i + 1];
  }

  lemma SameInOrder(s: seq<Recording>)
    requires NoDuplicates(s)
    ensures InOrder(s, s)
  {
  }

  lemma LoopRemovesOne(b: Bridge, step: LoopStep)
    requires Inv(b) && LoopMay(b, step)
    ensures AtMostOneLess(b.all, AfterLoop(b, step).all)
  {
    match step
    case FlushTake => LoopTakes(b, step);
    case ShutdownTake => LoopTakes(b, step);
    case DisconnectTake => LoopTakes(b, step);
    case CleanCheck(v) => CleanCheckIs(b, v);
    case CleanDrop(v) => DropRemovesOne(b, v);
    case CleanJoined(v) => TakesOutOne(b, v, LockOf(b, v).next);
    case _ =>
  }

  lemma TakesOutOne(b: Bridge, v: Vector, i: nat)
    requires Inv(b) && Chosen(LockOf(b, v)) && LockOf(b, v).next == i && i < |ListOf(b, v)|
    ensures AtMostOneLess(b.all, TakenOut(b, v, i).all)
  {
    ChosenStaysAlone(b, v);
    TakenOutTakesOut(b, v, i);
    assert ListOf(TakenOut(b, v, i), All) == TakenOut(b, v, i).all;
  }

  lemma DropRemovesOne(b: Bridge, v: Vector)
    requires Inv(b) && LoopMay(b, CleanDrop(v))
    ensures AtMostOneLess(b.all, AfterLoop(b, CleanDrop(v)).all)
  {
    CleanDropIs(b, v);
    if RefCount(b, ListOf(b, v)[LockOf(b, v).next]) != 1 { TakesOutOne(b, v, LockOf(b, v).next); }
  }

  /** A step keeps the order that `first` is in. */
  lemma {:induction false} StepKeepsOrder(b: Bridge, step: Step, first: seq<Recording>)
    requires Inv(b) && Enabled(b, step) && InOrder(first, b.all)
    requires forall r :: r in first ==> Rank(OwnerOf(b, r)) >= Rank(InAll)
    ensures InOrder(first, Apply(b, step).all)
  {
    match step
    case ByPython(p) =>
      if p.Register? {
        RegisterIs(b, p.r);
        AppendedInOrder(first, b.all, p.r);
      } else {
        PythonLeavesVectors(b, p, All);
      }
    case ByImporter(i) => ImporterLeavesVectors(b, i, All);
    case ByLoop(l) =>
      LoopRemovesOne(b, l);
      LessIsInOrder(first, b.all, AfterLoop(b, l).all);
  }

  lemma {:induction false} RunKeepsOrder(b: Bridge, steps: seq<Step>, c: Bridge, first: seq<Recording>)
    requires Inv(b) && Leads(Next, b, steps, c) && InOrder(first, b.all)
    requires forall r :: r in first ==> Rank(OwnerOf(b, r)) >= Rank(InAll)
    ensures InOrder(first, c.all)
    decreases |steps|
  {
    if steps != [] {
      var d := Apply(b, steps[0]);
      StepKeepsInv(b, steps[0]);
      StepKeepsOrder(b, steps[0], first);
      forall r | r in first ensures Rank(OwnerOf(d, r)) >= Rank(InAll) { StepMovesOn(b, steps[0], r); }
      RunKeepsOrder(d, steps[1..], c, first);
    }
  }

  /** ALL_RECORDINGS stays in the order of registration, whatever is registered and taken out. */
  lemma {:induction false} RegistrationOrder(b: Bridge, steps: seq<Step>, c: Bridge)
    requires Inv(b) && Leads(Next, b, steps, c)
    ensures InOrder(b.all, c.all)
  {
    SameInOrder(b.all);
    RunKeepsOrder(b, steps, c, b.all);
  }
}
