/** `replace_foreign_objects` of `scripts/render_d2.py`: the rewriting of child lists in place. */
module D2Documents {
  import opened Graphs
  import opened Texts
  import opened D2Labels

  type Id(==, !new)

  datatype Box = Box(x: real, y: real, w: real, h: real)

  /** An entry of a child list: an element the document came with, with the text behind it, or a label
      put in its place. */
  datatype Item =
    | Original(id: Id, element: Element, box: Box, tail: string)
    | Text(x: real, y: real, content: Label)

  type Lists = map<Id, seq<Item>>

  predicate IsForeign(item: Item) {
    item.Original? && Lower(LocalName(item.element.tag)) == "foreignobject"
  }

  function SegmentsOf(item: Item): seq<Segment>
    requires item.Original?
  {
    Normalized(Segments(item.element, false))
  }

  function Centred(b: Box, content: Label): Item {
    Text(b.x + b.w / 2.0, b.y + b.h / 2.0, content)
  }

  /** What stands in the place of `item` once it has been processed: the label centred in the
      object's box, or nothing when there is no text. */
  function Replacement(item: Item): seq<Item> {
    if !IsForeign(item) then [item]
    else if SegmentsOf(item) == [] then []
    else [Centred(item.box, Built(SegmentsOf(item)))]
  }

  /** The label has the object's centre: as far to its left edge as to its right, and so for height. */
  lemma LabelIsCentred(item: Item)
    requires IsForeign(item) && SegmentsOf(item) != []
    ensures |Replacement(item)| == 1 && Replacement(item)[0].Text?
    ensures
      var text, b := Replacement(item)[0], item.box;
      text.x - b.x == b.x + b.w - text.x && text.y - b.y == b.y + b.h - text.y
  {
  }

  /** The list with the items in `done` processed. */
  function Partly(items: seq<Item>, done: set<Item>): seq<Item> {
    if items == [] then []
    else (if items[0] in done then Replacement(items[0]) else [items[0]]) + Partly(items[1..], done)
  }

  /** The list with every foreign object replaced, each in its own place. */
  function Rewritten(items: seq<Item>): seq<Item> {
    if items == [] then [] else Replacement(items[0]) + Rewritten(items[1..])
  }

  datatype Target = Target(parent: Id, item: Item)

  function TargetsIn(parent: Id, items: seq<Item>): seq<Target> {
    if items == [] then []
    else
      var last := items[|items| - 1];
      TargetsIn(parent, items[..|items| - 1]) + if IsForeign(last) then [Target(parent, last)] else []
  }

  /** `order` is the order in which the document's elements are visited. */
  function TargetsOf(order: seq<Id>, start: Lists): seq<Target>
    requires forall p :: p in order ==> p in start
  {
    if order == [] then []
    else
      var last := order[|order| - 1];
      TargetsOf(order[..|order| - 1], start) + TargetsIn(last, start[last])
  }

  // ----- the text behind the entries -----

  function TailOf(item: Item): string {
    if item.Original? then item.tail else ""
  }

  function Behind(items: seq<Item>): string {
    if items == [] then "" else TailOf(items[0]) + Behind(items[1..])
  }

  lemma BehindReplaced(item: Item, rest: seq<Item>)
    ensures Behind(Replacement(item) + rest) == (if IsForeign(item) then "" else TailOf(item)) + Behind(rest)
  {
    var all := Replacement(item) + rest;
    if Replacement(item) == [] {
      assert all == rest;
    } else {
      assert all[1..] == rest;
    }
  }

  /** No text follows a foreign object. */
  ghost predicate NothingBehindForeign(items: seq<Item>) {
    forall i :: 0 <= i < |items| && IsForeign(items[i]) ==> items[i].tail == ""
  }

  lemma NothingBehindSplits(items: seq<Item>)
    requires items != []
    ensures NothingBehindForeign(items) <==>
      (IsForeign(items[0]) ==> items[0].tail == "") && NothingBehindForeign(items[1..])
  {
    assert items == [items[0]] + items[1..];
  }

  lemma SameFront(front: string, a: string, b: string)
    ensures front + a == front + b <==> a == b
  {
    assert (front + a)[|front|..] == a && (front + b)[|front|..] == b;
  }

  /** Removing an element from its list removes the text behind it: what a list holds between its
      entries survives exactly if no text follows a foreign object. */
  lemma {:induction false} TextBehindSurvivesExactlyWhen(items: seq<Item>)
    ensures |Behind(Rewritten(items))| <= |Behind(items)|
    ensures Behind(Rewritten(items)) == Behind(items) <==> NothingBehindForeign(items)
    decreases |items|
  {
    if items != [] {
      TextBehindSurvivesExactlyWhen(items[1..]);
      NothingBehindSplits(items);
      BehindReplaced(items[0], Rewritten(items[1..]));
      SameFront(TailOf(items[0]), Behind(Rewritten(items[1..])), Behind(items[1..]));
    }
  }

  // ----- one target -----

  lemma {:induction false} PartlyConcat(a: seq<Item>, b: seq<Item>, done: set<Item>)
    ensures Partly(a + b, done) == Partly(a, done) + Partly(b, done)
    decreases |a|
  {
    if a == [] {
      assert a + b == b;
    } else {
      PartlyConcat(a[1..], b, done);
      assert (a + b)[1..] == a[1..] + b;
      Associates(if a[0] in done then Replacement(a[0]) else [a[0]], Partly(a[1..], done), Partly(b, done));
    }
  }

  lemma {:induction false} PartlyElsewhere(items: seq<Item>, done: set<Item>, x: Item)
    requires x !in items
    ensures Partly(items, done + {x}) == Partly(items, done)
    decreases |items|
  {
    if items != [] { PartlyElsewhere(items[1..], done, x); }
  }

  lemma {:induction false} PartlyLacks(items: seq<Item>, done: set<Item>, x: Item)
    requires x !in items && x.Original?
    ensures x !in Partly(items, done)
    decreases |items|
  {
    if items != [] {
      PartlyLacks(items[1..], done, x);
      assert x !in Replacement(items[0]);
    }
  }

  lemma PartlyAt(items: seq<Item>, done: set<Item>, k: nat)
    requires k < |items|
    ensures
      var here := if items[k] in done then Replacement(items[k]) else [items[k]];
      Partly(items, done) == Partly(items[..k], done) + (here + Partly(items[k + 1..], done))
  {
    assert items == items[..k] + items[k..];
    PartlyConcat(items[..k], items[k..], done);
    assert items[k..][1..] == items[k + 1..];
  }

  /** Processing one more target changes the list at exactly one place, where the target is. */
  lemma PartlyStep(items: seq<Item>, done: set<Item>, k: nat)
    requires NoDuplicates(items) && k < |items| && items[k] !in done && items[k].Original?
    ensures
      var now, p := Partly(items, done), |Partly(items[..k], done)|;
      && p < |now| && now[p] == items[k] && (forall i :: 0 <= i < p ==> now[i] != items[k])
      && Partly(items, done + {items[k]}) == now[..p] + Replacement(items[k]) + now[p + 1..]
  {
    var x, before, after := items[k], items[..k], items[k + 1..];
    PartlyAt(items, done, k);
    PartlyAt(items, done + {x}, k);
    PartlyElsewhere(before, done, x);
    PartlyElsewhere(after, done, x);
    PartlyLacks(before, done, x);
    SpliceOne(Partly(before, done), x, Partly(after, done), Replacement(x));
  }

  lemma SpliceOne<T>(a: seq<T>, x: T, b: seq<T>, r: seq<T>)
    requires x !in a
    ensures
      var s := a + ([x] + b);
      && s[|a|] == x && (forall i :: 0 <= i < |a| ==> s[i] != x)
      && a + (r + b) == s[..|a|] + r + s[|a| + 1..]
  {
  }

  // ----- all lists -----

  /** The state between two targets. */
  ghost predicate Progress(start: Lists, now: Lists, done: set<Item>) {
    now.Keys == start.Keys && forall p :: p in start ==> now[p] == Partly(start[p], done)
  }

  /** Every element of a document has one parent and one place there. */
  ghost predicate OneParent(start: Lists) {
    && (forall p :: p in start ==> NoDuplicates(start[p]))
    && (forall p, q, x :: p in start && q in start && x in start[p] && x in start[q] ==> p == q)
  }

  lemma ProgressStep(start: Lists, now: Lists, done: set<Item>, p: Id, k: nat, list: seq<Item>)
    requires OneParent(start) && Progress(start, now, done)
    requires p in start && k < |start[p]| && list == Partly(start[p], done + {start[p][k]})
    ensures Progress(start, now[p := list], done + {start[p][k]})
  {
    var x := start[p][k];
    forall q | q in start ensures now[p := list][q] == Partly(start[q], done + {x}) {
      if q != p {
        assert x in start[p];
        PartlyElsewhere(start[q], done, x);
      }
    }
  }

  lemma {:induction false} PartlyIsRewritten(items: seq<Item>, done: set<Item>)
    requires forall x :: x in items ==> (x in done <==> IsForeign(x))
    ensures Partly(items, done) == Rewritten(items)
    decreases |items|
  {
    if items != [] { PartlyIsRewritten(items[1..], done); }
  }

  // ----- the targets -----

  lemma {:induction false} TargetsInAre(parent: Id, items: seq<Item>)
    ensures forall t :: t in TargetsIn(parent, items) <==> t.parent == parent && t.item in items && IsForeign(t.item)
    ensures NoDuplicates(items) ==> NoDuplicates(TargetsIn(parent, items))
    decreases |items|
  {
    if items != [] {
      TargetsInAre(parent, items[..|items| - 1]);
      assert items == items[..|items| - 1] + [items[|items| - 1]];
    }
  }

  lemma NoDuplicatesConcat<T>(a: seq<T>, b: seq<T>)
    requires NoDuplicates(a) && NoDuplicates(b) && forall x :: x in a ==> x !in b
    ensures NoDuplicates(a + b)
  {
    var s := a + b;
    forall i, j | 0 <= i < j < |s| ensures s[i] != s[j] {
      if i < |a| <= j {
        assert s[i] in a && s[j] in b;
      }
    }
  }

  lemma {:induction false} TargetsOfAre(order: seq<Id>, start: Lists)
    requires forall p :: p in order ==> p in start
    requires NoDuplicates(order) && forall p :: p in start ==> NoDuplicates(start[p])
    ensures forall t :: t in TargetsOf(order, start) <==>
      t.parent in order && t.item in start[t.parent] && IsForeign(t.item)
    ensures NoDuplicates(TargetsOf(order, start))
    decreases |order|
  {
    if order != [] {
      var front, last := order[..|order| - 1], order[|order| - 1];
      TargetsOfAre(front, start);
      TargetsInAre(last, start[last]);
      assert order == front + [last];
      NoDuplicatesConcat(TargetsOf(front, start), TargetsIn(last, start[last]));
    }
  }

  /** The targets before position `i` are the ones done. */
  ghost predicate DoneUpTo(targets: seq<Target>, i: nat, done: set<Item>)
    requires i <= |targets|
  {
    && (forall j :: 0 <= j < i ==> targets[j].item in done)
    && (forall x :: x in done ==> exists j :: 0 <= j < i && targets[j].item == x)
  }

  lemma DoneGrows(targets: seq<Target>, i: nat, done: set<Item>)
    requires i < |targets| && DoneUpTo(targets, i, done)
    ensures DoneUpTo(targets, i + 1, done + {targets[i].item})
  {
    forall x | x in done + {targets[i].item} ensures exists j :: 0 <= j < i + 1 && targets[j].item == x {
      if x in done {
        var j :| 0 <= j < i && targets[j].item == x;
      } else {
        assert targets[i].item == x;
      }
    }
  }

  lemma TargetIsNew(order: seq<Id>, start: Lists, i: nat, done: set<Item>)
    requires OneParent(start) && NoDuplicates(order) && forall p :: p in order ==> p in start
    requires i < |TargetsOf(order, start)| && DoneUpTo(TargetsOf(order, start), i, done)
    ensures
      var t := TargetsOf(order, start)[i];
      t.parent in start && t.item in start[t.parent] && IsForeign(t.item) && t.item !in done
  {
    var targets := TargetsOf(order, start);
    TargetsOfAre(order, start);
    assert targets[i] in targets;
    forall j | 0 <= j < i ensures targets[j].item != targets[i].item {
      assert targets[j] in targets && targets[j] != targets[i];
    }
  }

  lemma {:induction false} AllDone(order: seq<Id>, start: Lists, now: Lists, done: set<Item>)
    requires OneParent(start) && NoDuplicates(order) && forall p :: p in order <==> p in start
    requires DoneUpTo(TargetsOf(order, start), |TargetsOf(order, start)|, done) && Progress(start, now, done)
    ensures now.Keys == start.Keys && forall p :: p in start ==> now[p] == Rewritten(start[p])
  {
    var targets := TargetsOf(order, start);
    TargetsOfAre(order, start);
    forall j | 0 <= j < |targets| ensures IsForeign(targets[j].item) {
      assert targets[j] in targets;
    }
    forall p | p in start ensures now[p] == Rewritten(start[p]) {
      forall x | x in start[p] ensures x in done <==> IsForeign(x) {
        if IsForeign(x) {
          assert Target(p, x) in targets;
        }
      }
      PartlyIsRewritten(start[p], done);
    }
  }

  method CollectTargets(order: seq<Id>, lists: Lists) returns (targets: seq<Target>)
    requires forall p :: p in order ==> p in lists
    ensures targets == TargetsOf(order, lists)
  {
    targets := [];
    for i := 0 to |order|
      invariant targets == TargetsOf(order[..i], lists)
    {
      assert order[..i + 1][..i] == order[..i];
      ghost var before := targets;
      var items := lists[order[i]];
      for k := 0 to |items|
        invariant targets == before + TargetsIn(order[i], items[..k])
      {
        assert items[..k + 1][..k] == items[..k];
        Associates(before, TargetsIn(order[i], items[..k]), [Target(order[i], items[k])]);
        if IsForeign(items[k]) {
          targets := targets + [Target(order[i], items[k])];
        }
      }
      assert items[..|items|] == items;
    }
    assert order[..|order|] == order;
  }

  /** The parsed document: the child list of every element. */
  class Document {
    var lists: Lists

    constructor (lists: Lists)
      ensures this.lists == lists
    {
      this.lists := lists;
    }

    /** `order` holds every element once, as `root.iter()` visits them. */
    method ReplaceForeignObjects(order: seq<Id>)
      requires OneParent(lists) && NoDuplicates(order) && forall p :: p in order <==> p in lists
      modifies this
      ensures lists.Keys == old(lists.Keys)
      ensures forall p :: p in old(lists) ==> lists[p] == Rewritten(old(lists)[p])
    {
      ghost var start, done := lists, {};
      var targets := CollectTargets(order, lists);
      NothingDone(lists);
      for i := 0 to |targets|
        invariant DoneUpTo(targets, i, done) && Progress(start, lists, done)
      {
        TargetIsNew(order, start, i, done);
        DoneGrows(targets, i, done);
        StillThere(start[targets[i].parent], done, targets[i].item);
        var list := ReplaceOne(targets[i], lists[targets[i].parent], start[targets[i].parent], done);
        ghost var k :| 0 <= k < |start[targets[i].parent]| && start[targets[i].parent][k] == targets[i].item;
        ProgressStep(start, lists, done, targets[i].parent, k, list);
        lists := lists[targets[i].parent := list];
        done := done + {targets[i].item};
      }
      AllDone(order, start, lists, done);
    }
  }

  lemma {:induction false} NothingDoneIn(items: seq<Item>)
    ensures Partly(items, {}) == items
    decreases |items|
  {
    if items != [] { NothingDoneIn(items[1..]); }
  }

  lemma NothingDone(lists: Lists)
    ensures Progress(lists, lists, {})
  {
    forall p | p in lists ensures Partly(lists[p], {}) == lists[p] { NothingDoneIn(lists[p]); }
  }

  lemma StillThere(items: seq<Item>, done: set<Item>, x: Item)
    requires NoDuplicates(items) && x in items && x !in done && x.Original?
    ensures x in Partly(items, done)
  {
    var k :| 0 <= k < |items| && items[k] == x;
    PartlyStep(items, done, k);
  }

  lemma RemoveThenInsert<T>(s: seq<T>, index: nat, inserted: seq<T>)
    requires index < |s|
    ensures
      var r := s[..index] + s[index + 1..];
      r[..index] + inserted + r[index..] == s[..index] + inserted + s[index + 1..]
    ensures inserted == [] ==> s[..index] + s[index + 1..] == s[..index] + inserted + s[index + 1..]
  {
    var r := s[..index] + s[index + 1..];
    assert r[..index] == s[..index] && r[index..] == s[index + 1..];
  }

  /** The first place of `x` in the list is where processing it changes the list. */
  lemma FoundPlace(items: seq<Item>, done: set<Item>, x: Item, index: nat)
    requires NoDuplicates(items) && x in items && x !in done && x.Original?
    requires index < |Partly(items, done)| && Partly(items, done)[index] == x
    requires forall i :: 0 <= i < index ==> Partly(items, done)[i] != x
    ensures
      var now := Partly(items, done);
      Partly(items, done + {x}) == now[..index] + Replacement(x) + now[index + 1..]
  {
    var k :| 0 <= k < |items| && items[k] == x;
    PartlyStep(items, done, k);
    assert index == |Partly(items[..k], done)|;
  }

  /** One label, or none when the object has no text. */
  method LabelsFor(item: Item) returns (labels: seq<Item>)
    requires IsForeign(item)
    ensures labels == Replacement(item)
  {
    var extracted := ExtractSegments(item.element, false);
    var segs := NormalizeSegments(extracted);
    if segs == [] {
      return [];
    }
    var content := BuildLabel(segs);
    labels := [Centred(item.box, content)];
  }

  method ReplaceOne(target: Target, list: seq<Item>, ghost start: seq<Item>, ghost done: set<Item>)
    returns (r: seq<Item>)
    requires NoDuplicates(start) && target.item in start && target.item !in done && IsForeign(target.item)
    requires list == Partly(start, done) && target.item in list
    ensures r == Partly(start, done + {target.item})
  {
    var labels := LabelsFor(target.item);
    var index := IndexOf(list, target.item);
    FoundPlace(start, done, target.item, index);
    RemoveThenInsert(list, index, labels);
    r := list[..index] + list[index + 1..];
    if labels != [] {
      r := r[..index] + labels + r[index..];
    }
  }
}
