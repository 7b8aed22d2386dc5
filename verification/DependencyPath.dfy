/** `get_dependency_path` of `scripts/check_forbidden_dependencies.py`: the chain from the root to
    a forbidden crate, rebuilt from the indented listing of `cargo tree`. */
module DependencyPath {
  import opened Texts

  // ----- lines -----

  /** The characters `cargo tree` draws its branches with. */
  predicate Drawing(c: char) {
    c == '\U{2502}' || c == '\U{251C}' || c == '\U{2514}' || c == '\U{2500}' || c == ' ' || c == '\t'
  }

  function PrefixLength(line: string): (n: nat)
    ensures n <= |line| && (forall j :: 0 <= j < n ==> Drawing(line[j])) && (n < |line| ==> !Drawing(line[n]))
  {
    if line == "" || !Drawing(line[0]) then 0 else 1 + PrefixLength(line[1..])
  }

  function Indent(line: string): nat {
    if PrefixLength(line) == |line| then 0 else PrefixLength(line)
  }

  method IndentLevel(line: string) returns (contentStart: nat)
    ensures contentStart == Indent(line)
  {
    contentStart := 0;
    for j := 0 to |line|
      invariant contentStart == 0 && forall k :: 0 <= k < j ==> Drawing(line[k])
    {
      if !Drawing(line[j]) {
        return j;
      }
    }
  }

  function TakeWord(s: string): string {
    if s == "" || IsSpace(s[0]) then "" else [s[0]] + TakeWord(s[1..])
  }

  /** The first word after the drawing; empty when there is none, where
      `get_dependency_path` raises `IndexError`. */
  function CrateName(line: string): string {
    TakeWord(DropSpaces(line[PrefixLength(line)..]))
  }

  lemma {:induction false} PrefixOf(prefix: string, rest: string)
    requires (forall j :: 0 <= j < |prefix| ==> Drawing(prefix[j])) && rest != "" && !Drawing(rest[0])
    ensures PrefixLength(prefix + rest) == |prefix|
    decreases |prefix|
  {
    if prefix == "" {
      assert prefix + rest == rest;
    } else {
      PrefixOf(prefix[1..], rest);
      assert (prefix + rest)[1..] == prefix[1..] + rest;
    }
  }

  lemma {:induction false} TakesWord(word: string, rest: string)
    requires (forall j :: 0 <= j < |word| ==> !IsSpace(word[j])) && (rest == "" || IsSpace(rest[0]))
    ensures TakeWord(word + rest) == word
    decreases |word|
  {
    if word == "" {
      assert word + rest == rest;
    } else {
      TakesWord(word[1..], rest);
      assert (word + rest)[1..] == word[1..] + rest;
      assert word == [word[0]] + word[1..];
    }
  }

  /** On a line as `cargo tree` prints it, behind the drawing and before a blank, the end of the line or
      other whitespace, the name is found. */
  lemma CrateNameIs(drawing: string, name: string, rest: string)
    requires forall j :: 0 <= j < |drawing| ==> Drawing(drawing[j])
    requires name != "" && !Drawing(name[0]) && forall j :: 0 <= j < |name| ==> !IsSpace(name[j])
    requires rest == "" || IsSpace(rest[0])
    ensures CrateName(drawing + (name + rest)) == name
  {
    var line := drawing + (name + rest);
    PrefixOf(drawing, name + rest);
    assert line[|drawing|..] == name + rest;
    assert (name + rest)[0] == name[0];
    TakesWord(name, rest);
  }

  // ----- the search and the walk back -----

  datatype Hit = Match(at: nat) | Blank(at: nat) | NoMatch

  ghost predicate IsFirstHit(lines: seq<string>, forbidden: string, hit: Hit) {
    var end := if hit.NoMatch? then |lines| else hit.at;
    && end <= |lines|
    && (forall j :: 0 <= j < end ==> CrateName(lines[j]) != "" && CrateName(lines[j]) != forbidden)
    && (hit.Match? ==> end < |lines| && CrateName(lines[end]) != "" && CrateName(lines[end]) == forbidden)
    && (hit.Blank? ==> end < |lines| && CrateName(lines[end]) == "")
  }

  function Indents(lines: seq<string>): (r: seq<nat>)
    ensures |r| == |lines| && forall i :: 0 <= i < |lines| ==> r[i] == Indent(lines[i])
  {
    if lines == [] then [] else Indents(lines[..|lines| - 1]) + [Indent(lines[|lines| - 1])]
  }

  /** The lines above `i` that a walk back from an indent of `current` picks, top line first. */
  function Climb(d: seq<nat>, i: nat, current: nat): seq<nat>
    requires i <= |d|
  {
    if i == 0 then []
    else if d[i - 1] < current then Climb(d, i - 1, d[i - 1]) + [i - 1]
    else Climb(d, i - 1, current)
  }

  lemma {:induction false} ClimbStaysAtZero(d: seq<nat>, i: nat)
    requires i <= |d|
    ensures Climb(d, i, 0) == []
  {
    if i > 0 { ClimbStaysAtZero(d, i - 1); }
  }

  ghost predicate PicksBackwards(lines: seq<string>, path: seq<string>, at: seq<nat>) {
    && |path| == |at|
    && forall j :: 0 <= j < |at| ==> at[j] < |lines| && path[|at| - 1 - j] == lines[at[j]]
  }

  ghost predicate Picks(lines: seq<string>, path: seq<string>, at: seq<nat>) {
    && |path| == |at|
    && forall j :: 0 <= j < |at| ==> at[j] < |lines| && path[j] == lines[at[j]]
  }

  function Reversed<T>(s: seq<T>): (r: seq<T>)
    ensures |r| == |s| && forall j :: 0 <= j < |s| ==> r[j] == s[|s| - 1 - j]
  {
    if s == [] then [] else Reversed(s[1..]) + [s[0]]
  }

  /** `"\n".join(lines)` */
  function Joined(lines: seq<string>): string {
    if lines == [] then "" else if |lines| == 1 then lines[0] else lines[0] + ("\n" + Joined(lines[1..]))
  }

  function LineLength(text: string): (n: nat)
    ensures n <= |text| && (forall j :: 0 <= j < n ==> text[j] != '\n') && (n < |text| ==> text[n] == '\n')
  {
    if text == "" || text[0] == '\n' then 0 else 1 + LineLength(text[1..])
  }

  /** `text.split("\n")` */
  function SplitLines(text: string): seq<string>
    decreases |text|
  {
    var n := LineLength(text);
    if n == |text| then [text] else [text[..n]] + SplitLines(text[n + 1..])
  }

  lemma FirstLineEnds(line: string, rest: string)
    requires '\n' !in line && (rest == "" || rest[0] == '\n')
    ensures LineLength(line + rest) == |line|
  {
    var text := line + rest;
    assert forall j :: 0 <= j < |line| ==> text[j] == line[j];
    assert rest != "" ==> text[|line|] == rest[0];
  }

  lemma SplitsFirstLine(line: string, rest: string)
    requires '\n' !in line
    ensures SplitLines(line + ("\n" + rest)) == [line] + SplitLines(rest)
  {
    var tail := "\n" + rest;
    var text := line + tail;
    FirstLineEnds(line, tail);
    assert text[..|line|] == line;
    assert text[|line| + 1..] == tail[1..] == rest;
  }

  lemma SplitsLastLine(line: string)
    requires '\n' !in line
    ensures SplitLines(line) == [line]
  {
    FirstLineEnds(line, "");
    assert line + "" == line;
  }

  /** The lines of a path can be told apart in the text that is returned. */
  lemma {:induction false} SplitInvertsJoined(lines: seq<string>)
    requires lines != [] && forall line :: line in lines ==> '\n' !in line
    ensures SplitLines(Joined(lines)) == lines
    decreases |lines|
  {
    assert lines == [lines[0]] + lines[1..];
    if |lines| == 1 {
      SplitsLastLine(lines[0]);
    } else {
      SplitInvertsJoined(lines[1..]);
      SplitsFirstLine(lines[0], Joined(lines[1..]));
    }
  }

  datatype Outcome = Path(lines: seq<string>, text: string) | NotFound | IndexError

  method GetDependencyPath(lines: seq<string>, forbidden: string) returns (hit: Hit, r: Outcome)
    ensures IsFirstHit(lines, forbidden, hit)
    ensures hit.Match? <==> r.Path?
    ensures hit.Match? ==> Picks(lines, r.lines, Climb(Indents(lines), hit.at, Indent(lines[hit.at])) + [hit.at])
    ensures r.Path? ==> r.text == Joined(r.lines)
    ensures hit.Blank? <==> r.IndexError?
  {
    hit := NoMatch;
    for i := 0 to |lines|
      invariant hit.NoMatch? && IsFirstHit(lines[..i], forbidden, NoMatch)
    {
      if CrateName(lines[i]) == "" {
        return Blank(i), IndexError;
      }
      if CrateName(lines[i]) == forbidden {
        hit := Match(i);
        break;
      }
    }
    if hit.NoMatch? {
      return hit, NotFound;
    }
    var path := WalkBack(lines, hit.at);
    r := Path(path, Joined(path));
  }

  /** The walk has come down to line `i`; `at` are the lines collected so far, top line first. */
  ghost predicate Walking(lines: seq<string>, target: nat, i: nat, current: nat, backwards: seq<string>, at: seq<nat>) {
    && i <= target < |lines| && PicksBackwards(lines, backwards, at)
    && Climb(Indents(lines), target, Indent(lines[target])) + [target] == Climb(Indents(lines), i, current) + at
  }

  lemma PicksOneMore(lines: seq<string>, path: seq<string>, at: seq<nat>, i: nat)
    requires PicksBackwards(lines, path, at) && i < |lines|
    ensures PicksBackwards(lines, path + [lines[i]], [i] + at)
  {
  }

  lemma WalkPicks(lines: seq<string>, target: nat, i: nat, current: nat, backwards: seq<string>, at: seq<nat>)
    requires i < |lines| && Walking(lines, target, i + 1, current, backwards, at) && Indent(lines[i]) < current
    ensures Walking(lines, target, i, Indent(lines[i]), backwards + [lines[i]], [i] + at)
  {
    PicksOneMore(lines, backwards, at, i);
    var d := Indents(lines);
    assert Climb(d, i + 1, current) == Climb(d, i, d[i]) + [i];
    assert Climb(d, i + 1, current) + at == Climb(d, i, d[i]) + ([i] + at);
  }

  lemma WalkSkips(lines: seq<string>, target: nat, i: nat, current: nat, backwards: seq<string>, at: seq<nat>)
    requires i < |lines| && Walking(lines, target, i + 1, current, backwards, at) && Indent(lines[i]) >= current
    ensures Walking(lines, target, i, current, backwards, at)
  {
  }

  lemma {:induction false} WalkEnds(
    lines: seq<string>, target: nat, i: nat, current: nat, backwards: seq<string>, at: seq<nat>)
    requires Walking(lines, target, i, current, backwards, at) && (i == 0 || current == 0)
    ensures Picks(lines, Reversed(backwards), Climb(Indents(lines), target, Indent(lines[target])) + [target])
  {
    if i > 0 { ClimbStaysAtZero(Indents(lines), i); }
    assert [] + at == at;
  }

  method WalkBack(lines: seq<string>, target: nat) returns (path: seq<string>)
    requires target < |lines|
    ensures Picks(lines, path, Climb(Indents(lines), target, Indent(lines[target])) + [target])
  {
    var backwards := [lines[target]];
    var current := IndentLevel(lines[target]);
    ghost var at: seq<nat> := [target];
    var i := target;
    while i > 0
      invariant Walking(lines, target, i, current, backwards, at)
    {
      i := i - 1;
      var indent := IndentLevel(lines[i]);
      if indent < current {
        WalkPicks(lines, target, i, current, backwards, at);
        backwards := backwards + [lines[i]];
        at := [i] + at;
        current := indent;
        if indent == 0 {
          break;
        }
      } else {
        WalkSkips(lines, target, i, current, backwards, at);
      }
    }
    WalkEnds(lines, target, i, current, backwards, at);
    path := Reversed(backwards);
  }

  // ----- trees and their listing -----

  datatype Tree = Tree(text: string, children: Forest)
  datatype Forest = NoTrees | Trees(first: Tree, rest: Forest)

  /** A text begins with its crate's name. */
  predicate IsLabel(text: string) {
    text != "" && !Drawing(text[0]) && !IsSpace(text[0])
  }

  predicate Labelled(t: Tree) {
    IsLabel(t.text) && ForestLabelled(t.children)
  }

  predicate ForestLabelled(f: Forest) {
    f.Trees? ==> Labelled(f.first) && ForestLabelled(f.rest)
  }

  function Size(t: Tree): (n: nat)
    ensures n > 0
  {
    1 + ForestSize(t.children)
  }

  function ForestSize(f: Forest): nat {
    match f
    case NoTrees => 0
    case Trees(first, rest) => Size(first) + ForestSize(rest)
  }

  const BRANCH := "\U{251C}\U{2500}\U{2500} "
  const LAST_BRANCH := "\U{2514}\U{2500}\U{2500} "
  const BAR := "\U{2502}   "
  const BLANK := "    "

  /** `own` precedes the label, `below` what is drawn for the children. */
  function Listing(t: Tree, own: string, below: string): (r: seq<string>)
    ensures |r| == Size(t)
  {
    [own + t.text] + ForestListing(t.children, below)
  }

  function ForestListing(f: Forest, below: string): (r: seq<string>)
    ensures |r| == ForestSize(f)
  {
    match f
    case NoTrees => []
    case Trees(first, rest) =>
      var last := rest.NoTrees?;
      var own, next := if last then LAST_BRANCH else BRANCH, if last then BLANK else BAR;
      Listing(first, below + own, below + next) + ForestListing(rest, below)
  }

  /** The trees from `t` down to the one listed on line `k`. */
  function Chain(t: Tree, k: nat): (r: seq<Tree>)
    requires k < Size(t)
    ensures r != [] && r[0] == t
  {
    [t] + if k == 0 then [] else ForestChain(t.children, k - 1)
  }

  function ForestChain(f: Forest, k: nat): (r: seq<Tree>)
    requires k < ForestSize(f)
    ensures r != [] && Among(r[0], f)
  {
    if k < Size(f.first) then Chain(f.first, k) else ForestChain(f.rest, k - Size(f.first))
  }

  predicate Among(t: Tree, f: Forest) {
    f.Trees? && (t == f.first || Among(t, f.rest))
  }

  ghost predicate ParentToChild(chain: seq<Tree>) {
    forall i, j :: 0 <= i < |chain| && j == i + 1 < |chain| ==> Among(chain[j], chain[i].children)
  }

  lemma {:induction false} ChainGoesParentToChild(t: Tree, k: nat)
    requires k < Size(t)
    ensures ParentToChild(Chain(t, k))
  {
    if k > 0 { ForestChainGoesParentToChild(t.children, k - 1); }
  }

  lemma {:induction false} ForestChainGoesParentToChild(f: Forest, k: nat)
    requires k < ForestSize(f)
    ensures ParentToChild(ForestChain(f, k))
  {
    if k < Size(f.first) {
      ChainGoesParentToChild(f.first, k);
    } else {
      ForestChainGoesParentToChild(f.rest, k - Size(f.first));
    }
  }

  /** The lines of the chain that leads to line `p` when the listing of `t` starts on line `o`. */
  function Positions(t: Tree, p: nat, o: nat): (r: seq<nat>)
    requires o <= p < o + Size(t)
    ensures |r| == |Chain(t, p - o)| && r[|r| - 1] == p
  {
    [o] + if p == o then [] else ForestPositions(t.children, p, o + 1)
  }

  function ForestPositions(f: Forest, p: nat, o: nat): (r: seq<nat>)
    requires o <= p < o + ForestSize(f)
    ensures |r| == |ForestChain(f, p - o)| && r[|r| - 1] == p
  {
    if p < o + Size(f.first) then Positions(f.first, p, o) else ForestPositions(f.rest, p, o + Size(f.first))
  }

  function TreeIndents(t: Tree, b: nat): (r: seq<nat>)
    ensures |r| == Size(t)
  {
    [b] + ForestIndents(t.children, b + 4)
  }

  function ForestIndents(f: Forest, b: nat): (r: seq<nat>)
    ensures |r| == ForestSize(f)
  {
    match f
    case NoTrees => []
    case Trees(first, rest) => TreeIndents(first, b) + ForestIndents(rest, b)
  }

  // ----- the walk back climbs the tree -----

  ghost predicate Holds<T>(d: seq<T>, o: nat, part: seq<T>) {
    o + |part| <= |d| && forall j :: 0 <= j < |part| ==> d[o + j] == part[j]
  }

  lemma HoldsParts<T>(d: seq<T>, o: nat, first: seq<T>, rest: seq<T>)
    requires Holds(d, o, first + rest)
    ensures Holds(d, o, first) && Holds(d, o + |first|, rest)
  {
    forall j | 0 <= j < |first| ensures d[o + j] == first[j] {
      assert (first + rest)[j] == first[j];
    }
    forall j | 0 <= j < |rest| ensures d[o + |first| + j] == rest[j] {
      assert (first + rest)[|first| + j] == rest[j];
    }
  }

  lemma {:induction false} TreeIndentsBelow(t: Tree, b: nat)
    ensures forall j :: 0 <= j < Size(t) ==> TreeIndents(t, b)[j] >= b
    decreases t
  {
    ForestIndentsBelow(t.children, b + 4);
  }

  lemma {:induction false} ForestIndentsBelow(f: Forest, b: nat)
    ensures forall j :: 0 <= j < ForestSize(f) ==> ForestIndents(f, b)[j] >= b
    decreases f
  {
    if f.Trees? {
      TreeIndentsBelow(f.first, b);
      ForestIndentsBelow(f.rest, b);
    }
  }

  lemma {:induction false} ClimbSkips(d: seq<nat>, o: nat, n: nat, b: nat)
    requires o + n <= |d| && forall j :: o <= j < o + n ==> d[j] >= b
    ensures Climb(d, o + n, b) == Climb(d, o, b)
    decreases n
  {
    if n > 0 { ClimbSkips(d, o, n - 1, b); }
  }

  lemma ForestParts(d: seq<nat>, o: nat, f: Forest, b: nat)
    requires f.Trees? && Holds(d, o, ForestIndents(f, b))
    ensures Holds(d, o, TreeIndents(f.first, b)) && Holds(d, o + Size(f.first), ForestIndents(f.rest, b))
    ensures Climb(d, o + Size(f.first), b) == Climb(d, o, b)
  {
    var first, n := TreeIndents(f.first, b), Size(f.first);
    HoldsParts(d, o, first, ForestIndents(f.rest, b));
    TreeIndentsBelow(f.first, b);
    forall j | o <= j < o + n ensures d[j] >= b { assert d[o + (j - o)] == first[j - o]; }
    ClimbSkips(d, o, n, b);
  }

  lemma {:induction false} ClimbsTree(d: seq<nat>, o: nat, t: Tree, b: nat, p: nat)
    requires Holds(d, o, TreeIndents(t, b)) && o <= p < o + Size(t)
    ensures Climb(d, p, d[p]) + [p] == Climb(d, o, b) + Positions(t, p, o)
    decreases t
  {
    HoldsParts(d, o, [b], ForestIndents(t.children, b + 4));
    assert d[o + 0] == [b][0];
    if p > o {
      ClimbsForest(d, o + 1, t.children, b + 4, p);
      assert Climb(d, o + 1, b + 4) == Climb(d, o, b) + [o];
    }
  }

  lemma {:induction false} ClimbsForest(d: seq<nat>, o: nat, f: Forest, b: nat, p: nat)
    requires Holds(d, o, ForestIndents(f, b)) && o <= p < o + ForestSize(f)
    ensures Climb(d, p, d[p]) + [p] == Climb(d, o, b) + ForestPositions(f, p, o)
    decreases f
  {
    ForestParts(d, o, f, b);
    var next := o + Size(f.first);
    if p < next {
      ClimbsTree(d, o, f.first, b, p);
    } else {
      ClimbsForest(d, next, f.rest, b, p);
      assert ForestPositions(f, p, o) == ForestPositions(f.rest, p, next);
    }
  }

  // ----- what the listing prints -----

  predicate AllDrawing(s: string) {
    forall i :: 0 <= i < |s| ==> Drawing(s[i])
  }

  /** `line` is `text` behind `indent` characters of drawing. */
  ghost predicate Shows(line: string, indent: nat, text: string) {
    |line| == indent + |text| && AllDrawing(line[..indent]) && line[indent..] == text
  }

  lemma ShowsNameAndIndent(line: string, indent: nat, text: string)
    requires Shows(line, indent, text) && IsLabel(text)
    ensures Indent(line) == indent && CrateName(line) == CrateName(text) != ""
  {
    assert line[indent] == text[0];
    forall j | 0 <= j < indent ensures Drawing(line[j]) { assert line[..indent][j] == line[j]; }
    assert PrefixLength(text) == 0 && text[0..] == text;
  }

  lemma ShowsOwn(own: string, text: string)
    requires AllDrawing(own)
    ensures Shows(own + text, |own|, text)
  {
    assert (own + text)[..|own|] == own;
  }

  lemma DrawnBelow(below: string, piece: string)
    requires AllDrawing(below) && piece in {BRANCH, LAST_BRANCH, BAR, BLANK}
    ensures AllDrawing(below + piece) && |below + piece| == |below| + 4
  {
  }

  ghost predicate ShowsChain(lines: seq<string>, at: seq<nat>, b: nat, chain: seq<Tree>) {
    && |at| == |chain|
    && forall j :: 0 <= j < |at| ==> at[j] < |lines| && Shows(lines[at[j]], b + 4 * j, chain[j].text)
  }

  lemma ShowsLonger(lines: seq<string>, o: nat, at: seq<nat>, b: nat, t: Tree, chain: seq<Tree>)
    requires o < |lines| && Shows(lines[o], b, t.text) && ShowsChain(lines, at, b + 4, chain)
    ensures ShowsChain(lines, [o] + at, b, [t] + chain)
  {
    forall j | 0 <= j < |at| + 1
      ensures ([o] + at)[j] < |lines| && Shows(lines[([o] + at)[j]], b + 4 * j, ([t] + chain)[j].text)
    {
      if j > 0 { assert at[j - 1] < |lines| && Shows(lines[at[j - 1]], b + 4 + 4 * (j - 1), chain[j - 1].text); }
    }
  }

  lemma {:induction false} ListingShowsChain(lines: seq<string>, o: nat, t: Tree, own: string, below: string, p: nat)
    requires AllDrawing(own) && AllDrawing(below) && |own| == |below|
    requires Holds(lines, o, Listing(t, own, below)) && o <= p < o + Size(t)
    ensures ShowsChain(lines, Positions(t, p, o), |own|, Chain(t, p - o))
    decreases t
  {
    HoldsParts(lines, o, [own + t.text], ForestListing(t.children, below));
    ShowsOwn(own, t.text);
    assert lines[o + 0] == [own + t.text][0];
    if p > o {
      ForestListingShowsChain(lines, o + 1, t.children, below, p);
      ShowsLonger(lines, o, ForestPositions(t.children, p, o + 1), |own|, t, ForestChain(t.children, p - o - 1));
    }
  }

  lemma {:induction false} ForestListingShowsChain(lines: seq<string>, o: nat, f: Forest, below: string, p: nat)
    requires AllDrawing(below)
    requires Holds(lines, o, ForestListing(f, below)) && o <= p < o + ForestSize(f)
    ensures ShowsChain(lines, ForestPositions(f, p, o), |below| + 4, ForestChain(f, p - o))
    decreases f
  {
    var own := below + if f.rest.NoTrees? then LAST_BRANCH else BRANCH;
    var next := below + if f.rest.NoTrees? then BLANK else BAR;
    DrawnBelow(below, if f.rest.NoTrees? then LAST_BRANCH else BRANCH);
    DrawnBelow(below, if f.rest.NoTrees? then BLANK else BAR);
    HoldsParts(lines, o, Listing(f.first, own, next), ForestListing(f.rest, below));
    if p < o + Size(f.first) {
      ListingShowsChain(lines, o, f.first, own, next, p);
    } else {
      ForestListingShowsChain(lines, o + Size(f.first), f.rest, below, p);
    }
  }

  lemma {:induction false} IndentsFollowChain(t: Tree, b: nat, k: nat)
    requires k < Size(t)
    ensures TreeIndents(t, b)[k] == b + 4 * (|Chain(t, k)| - 1)
    decreases t
  {
    if k > 0 { ForestIndentsFollowChain(t.children, b + 4, k - 1); }
  }

  lemma {:induction false} ForestIndentsFollowChain(f: Forest, b: nat, k: nat)
    requires k < ForestSize(f)
    ensures ForestIndents(f, b)[k] == b + 4 * (|ForestChain(f, k)| - 1)
    decreases f
  {
    if k < Size(f.first) {
      IndentsFollowChain(f.first, b, k);
    } else {
      ForestIndentsFollowChain(f.rest, b, k - Size(f.first));
    }
  }

  lemma {:induction false} ChainIsLabelled(t: Tree, k: nat)
    requires Labelled(t) && k < Size(t)
    ensures forall j :: 0 <= j < |Chain(t, k)| ==> IsLabel(Chain(t, k)[j].text)
    decreases t
  {
    if k > 0 { ForestChainIsLabelled(t.children, k - 1); }
  }

  lemma {:induction false} ForestChainIsLabelled(f: Forest, k: nat)
    requires ForestLabelled(f) && k < ForestSize(f)
    ensures forall j :: 0 <= j < |ForestChain(f, k)| ==> IsLabel(ForestChain(f, k)[j].text)
    decreases f
  {
    if k < Size(f.first) {
      ChainIsLabelled(f.first, k);
    } else {
      ForestChainIsLabelled(f.rest, k - Size(f.first));
    }
  }

  // ----- the results -----

  /** The output of `cargo tree`. */
  function Printed(t: Tree): (r: seq<string>)
    ensures |r| == Size(t)
  {
    Listing(t, "", "")
  }

  /** The crate listed on line `k`. */
  function CrateAt(t: Tree, k: nat): string
    requires k < Size(t)
  {
    CrateName(Chain(t, k)[|Chain(t, k)| - 1].text)
  }

  lemma PrintedLine(t: Tree, k: nat)
    requires Labelled(t) && k < Size(t)
    ensures CrateName(Printed(t)[k]) == CrateAt(t, k) != "" && Indent(Printed(t)[k]) == 4 * (|Chain(t, k)| - 1)
  {
    var chain := Chain(t, k);
    ListingShowsChain(Printed(t), 0, t, "", "", k);
    ChainIsLabelled(t, k);
    assert Positions(t, k, 0)[|chain| - 1] == k;
    ShowsNameAndIndent(Printed(t)[k], 4 * (|chain| - 1), chain[|chain| - 1].text);
  }

  lemma PrintedIndents(t: Tree)
    requires Labelled(t)
    ensures Indents(Printed(t)) == TreeIndents(t, 0)
  {
    forall k | 0 <= k < Size(t) ensures Indents(Printed(t))[k] == TreeIndents(t, 0)[k] {
      PrintedLine(t, k);
      IndentsFollowChain(t, 0, k);
    }
  }

  /** For every tree the search finds the first crate of that name in listing order, and the walk
      back returns exactly the lines of its chain of ancestors, root first. */
  lemma PathIsTheChain(t: Tree, forbidden: string, k: nat, path: seq<string>)
    requires Labelled(t) && IsFirstHit(Printed(t), forbidden, Match(k))
    requires Picks(Printed(t), path, Climb(Indents(Printed(t)), k, Indent(Printed(t)[k])) + [k])
    ensures |path| == |Chain(t, k)| && forall j :: 0 <= j < |path| ==> Shows(path[j], 4 * j, Chain(t, k)[j].text)
    ensures Chain(t, k)[0] == t && ParentToChild(Chain(t, k))
    ensures CrateAt(t, k) == forbidden && forall i :: 0 <= i < k ==> CrateAt(t, i) != forbidden
  {
    var d := Indents(Printed(t));
    PrintedIndents(t);
    ClimbsTree(d, 0, t, 0, k);
    assert Climb(d, 0, 0) + Positions(t, k, 0) == Positions(t, k, 0);
    ListingShowsChain(Printed(t), 0, t, "", "", k);
    ChainGoesParentToChild(t, k);
    PrintedLine(t, k);
    forall i | 0 <= i < k ensures CrateAt(t, i) != forbidden { PrintedLine(t, i); }
  }

  /** On a listing the search never meets a blank line, and finds the crate if it is in the tree. */
  lemma SearchSucceedsExactlyWhenListed(t: Tree, forbidden: string, hit: Hit)
    requires Labelled(t) && IsFirstHit(Printed(t), forbidden, hit)
    ensures !hit.Blank?
    ensures hit.Match? <==> exists k :: 0 <= k < Size(t) && CrateAt(t, k) == forbidden
  {
    forall k | 0 <= k < Size(t) ensures CrateName(Printed(t)[k]) == CrateAt(t, k) != "" { PrintedLine(t, k); }
  }

  ghost predicate Shortest(t: Tree, forbidden: string, k: nat)
    requires k < Size(t)
  {
    forall i :: 0 <= i < Size(t) && CrateAt(t, i) == forbidden ==> |Chain(t, k)| <= |Chain(t, i)|
  }

  /** The docstring takes the first match for one of the shortest paths. It is one exactly when no
      later matching line is indented less. */
  lemma ShortestExactlyWhen(t: Tree, forbidden: string, k: nat)
    requires Labelled(t) && IsFirstHit(Printed(t), forbidden, Match(k))
    ensures Shortest(t, forbidden, k) <==>
      forall j :: k < j < Size(t) && CrateName(Printed(t)[j]) == forbidden ==>
        Indent(Printed(t)[k]) <= Indent(Printed(t)[j])
  {
    forall i | 0 <= i < Size(t)
      ensures CrateName(Printed(t)[i]) == CrateAt(t, i) && Indent(Printed(t)[i]) == 4 * (|Chain(t, i)| - 1)
    {
      PrintedLine(t, i);
    }
  }

  function Detour(): Tree {
    var c := Tree("c", NoTrees);
    Tree("a", Trees(Tree("b", Trees(c, NoTrees)), Trees(c, NoTrees)))
  }

  lemma DetourShape()
    ensures var t := Detour(); Labelled(t) && Size(t) == 4
    ensures
      var t := Detour();
      && |Chain(t, 0)| == 1 && Chain(t, 0)[0].text == "a" && |Chain(t, 1)| == 2 && Chain(t, 1)[1].text == "b"
      && |Chain(t, 2)| == 3 && Chain(t, 2)[2].text == "c" && |Chain(t, 3)| == 2 && Chain(t, 3)[1].text == "c"
  {
    var t := Detour();
    var b, c := t.children.first, Tree("c", NoTrees);
    assert Size(c) == 1 && Size(b) == 2;
    assert Chain(c, 0) == [c] && Chain(b, 0) == [b] && Chain(b, 1) == [b, c];
    assert ForestChain(t.children, 0) == [b] && ForestChain(t.children, 1) == [b, c];
    assert ForestChain(t.children, 2) == [c];
  }

  lemma NameOfLetter(s: string)
    requires |s| == 1 && IsLabel(s)
    ensures CrateName(s) == s
  {
    assert PrefixLength(s) == 0 && s[0..] == s;
    assert DropSpaces(s) == s;
    assert s[1..] == "" && TakeWord("") == "";
    assert TakeWord(s) == [s[0]] + "" == s;
  }

  lemma {:induction false} DetourNames(k: nat)
    requires k < 4
    ensures Labelled(Detour()) && Size(Detour()) == 4
    ensures CrateName(Printed(Detour())[k]) == CrateAt(Detour(), k) == ["a", "b", "c", "c"][k]
  {
    DetourShape();
    NameOfLetter(["a", "b", "c", "c"][k]);
    PrintedLine(Detour(), k);
  }

  lemma ThirdIsFirstHit(lines: seq<string>)
    requires |lines| == 4 && CrateName(lines[0]) == "a" && CrateName(lines[1]) == "b" && CrateName(lines[2]) == "c"
    ensures IsFirstHit(lines, "c", Match(2))
  {
  }

  /** `a` depends on `b` and on `c`, and `b` depends on `c` as well: the path found goes by `b`. */
  lemma FirstMatchNeedNotBeShortest()
    ensures Labelled(Detour()) && Size(Detour()) == 4
    ensures IsFirstHit(Printed(Detour()), "c", Match(2)) && !Shortest(Detour(), "c", 2)
  {
    DetourShape();
    DetourNames(0);
    DetourNames(1);
    DetourNames(2);
    DetourNames(3);
    ThirdIsFirstHit(Printed(Detour()));
    assert |Chain(Detour(), 3)| < |Chain(Detour(), 2)|;
  }
}
