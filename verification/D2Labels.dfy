/** The label rewriter of `scripts/render_d2.py`: the HTML inside a `foreignObject` becomes a list
    of text segments, flagged as code or not, and those become one SVG `text` element. */
module D2Labels {
  import opened Texts

  // ----- elements -----

  /** `tail` is the text between a child's end and what follows it; empty stands for None as well. */
  datatype Element = Element(tag: string, text: string, kids: Kids)
  datatype Kids = NoKids | Kid(first: Element, tail: string, rest: Kids)

  /** The part of a tag after its namespace. */
  function LocalName(tag: string): string
    decreases |tag|
  {
    if tag == "" || tag[|tag| - 1] == '}' then "" else LocalName(tag[..|tag| - 1]) + [tag[|tag| - 1]]
  }

  /** `{namespace}local`, or `local` alone. */
  lemma {:induction false} LocalNameIs(namespace: string, local: string)
    requires '}' !in local && (namespace == "" || namespace[|namespace| - 1] == '}')
    ensures LocalName(namespace + local) == local
    decreases |local|
  {
    var tag := namespace + local;
    if local == "" {
      assert tag == namespace;
    } else {
      LocalNameIs(namespace, local[..|local| - 1]);
      assert tag[..|tag| - 1] == namespace + local[..|local| - 1] && tag[|tag| - 1] == local[|local| - 1];
    }
  }

  predicate IsCode(tag: string) {
    Lower(LocalName(tag)) == "code"
  }

  datatype Segment = Segment(text: string, code: bool)

  ghost predicate NoneEmpty(segs: seq<Segment>) {
    forall i :: 0 <= i < |segs| ==> segs[i].text != ""
  }

  ghost predicate Alternating(segs: seq<Segment>) {
    forall i, j :: 0 <= i < |segs| && j == i + 1 < |segs| ==> segs[i].code != segs[j].code
  }

  // ----- extract_segments -----

  function Piece(text: string, code: bool): seq<Segment> {
    if text == "" then [] else [Segment(text, code)]
  }

  function Segments(e: Element, inCode: bool): seq<Segment> {
    var isCode := inCode || IsCode(e.tag);
    Piece(e.text, isCode) + KidSegments(e.kids, isCode, inCode)
  }

  /** A child's tail gets the flag of its parent's surroundings, not that of its parent. */
  function KidSegments(kids: Kids, isCode: bool, inCode: bool): seq<Segment> {
    match kids
    case NoKids => []
    case Kid(first, tail, rest) => Segments(first, isCode) + (Piece(tail, inCode) + KidSegments(rest, isCode, inCode))
  }

  method ExtractSegments(e: Element, inCode: bool) returns (out: seq<Segment>)
    ensures out == Segments(e, inCode)
    decreases e
  {
    var isCode := inCode || IsCode(e.tag);
    out := [];
    if e.text != "" {
      out := out + [Segment(e.text, isCode)];
    }
    var kids := e.kids;
    while kids.Kid?
      invariant kids == e.kids || kids < e.kids
      invariant out + KidSegments(kids, isCode, inCode) == Segments(e, inCode)
      decreases kids
    {
      var more := ExtractSegments(kids.first, isCode);
      ghost var rest := KidSegments(kids.rest, isCode, inCode);
      Reassociate(out, more, Piece(kids.tail, inCode), rest);
      out := out + more;
      if kids.tail != "" {
        out := out + [Segment(kids.tail, inCode)];
      }
      kids := kids.rest;
    }
  }

  lemma Reassociate(a: seq<Segment>, b: seq<Segment>, c: seq<Segment>, d: seq<Segment>)
    ensures a + (b + (c + d)) == ((a + b) + c) + d
    ensures c == [] ==> a + (b + (c + d)) == (a + b) + d
  {
  }

  // ----- what a reader of the label sees -----

  function Mark(c: char, code: bool): seq<(char, bool)> {
    if IsSpace(c) then [] else [(c, code)]
  }

  /** The characters of `s` that are not whitespace, each with `code`. */
  function Marked(s: string, code: bool): seq<(char, bool)> {
    if s == "" then [] else Mark(s[0], code) + Marked(s[1..], code)
  }

  function AllMarked(segs: seq<Segment>): seq<(char, bool)> {
    if segs == [] then [] else Marked(segs[0].text, segs[0].code) + AllMarked(segs[1..])
  }

  /** The visible characters in document order, each with whether a `code` element encloses it. */
  function Visible(e: Element, inCode: bool): seq<(char, bool)> {
    var isCode := inCode || IsCode(e.tag);
    Marked(e.text, isCode) + KidsVisible(e.kids, isCode)
  }

  function KidsVisible(kids: Kids, isCode: bool): seq<(char, bool)> {
    match kids
    case NoKids => []
    case Kid(first, tail, rest) => Visible(first, isCode) + (Marked(tail, isCode) + KidsVisible(rest, isCode))
  }

  function Chars(marks: seq<(char, bool)>): (r: string)
    ensures |r| == |marks| && forall i :: 0 <= i < |marks| ==> r[i] == marks[i].0
  {
    seq(|marks|, i requires 0 <= i < |marks| => marks[i].0)
  }

  lemma {:induction false} MarkedConcat(s: string, t: string, code: bool)
    ensures Marked(s + t, code) == Marked(s, code) + Marked(t, code)
    decreases |s|
  {
    if s == "" {
      assert s + t == t;
    } else {
      MarkedConcat(s[1..], t, code);
      assert (s + t)[1..] == s[1..] + t;
      Associates(Mark(s[0], code), Marked(s[1..], code), Marked(t, code));
    }
  }

  lemma {:induction false} AllMarkedConcat(a: seq<Segment>, b: seq<Segment>)
    ensures AllMarked(a + b) == AllMarked(a) + AllMarked(b)
    decreases |a|
  {
    if a == [] {
      assert a + b == b;
    } else {
      AllMarkedConcat(a[1..], b);
      assert (a + b)[1..] == a[1..] + b;
      Associates(Marked(a[0].text, a[0].code), AllMarked(a[1..]), AllMarked(b));
    }
  }

  lemma PieceMarked(text: string, code: bool)
    ensures AllMarked(Piece(text, code)) == Marked(text, code)
  {
    if text != "" {
      assert Piece(text, code)[1..] == [];
    }
  }

  /** The same characters in the same order; the flags may differ. */
  ghost predicate SameChars(a: seq<(char, bool)>, b: seq<(char, bool)>) {
    Chars(a) == Chars(b)
  }

  lemma {:induction false} SameCharsMarked(s: string, c: bool, d: bool)
    ensures SameChars(Marked(s, c), Marked(s, d))
    ensures Marked(s, c) == Marked(s, d) <==> c == d || Marked(s, c) == []
    decreases |s|
  {
    if s != "" {
      SameCharsMarked(s[1..], c, d);
      SameCharsConcat(Mark(s[0], c), Marked(s[1..], c), Mark(s[0], d), Marked(s[1..], d));
    }
  }

  lemma SameCharsConcat(a: seq<(char, bool)>, b: seq<(char, bool)>, c: seq<(char, bool)>, d: seq<(char, bool)>)
    requires SameChars(a, c) && SameChars(b, d)
    ensures SameChars(a + b, c + d)
    ensures a + b == c + d <==> a == c && b == d
  {
    assert |a| == |Chars(a)| == |c|;
    assert |b| == |Chars(b)| == |d|;
    if a + b == c + d {
      assert (a + b)[..|a|] == a && (c + d)[..|a|] == c && (a + b)[|a|..] == b && (c + d)[|a|..] == d;
    }
  }

  /** No visible text follows a child inside a `code` element that is not itself inside one. */
  predicate TailsAreBlankInCode(e: Element, inCode: bool) {
    var isCode := inCode || IsCode(e.tag);
    KidTailsAreBlankInCode(e.kids, isCode, inCode)
  }

  predicate KidTailsAreBlankInCode(kids: Kids, isCode: bool, inCode: bool) {
    kids.Kid? ==>
      && TailsAreBlankInCode(kids.first, isCode)
      && (isCode != inCode ==> Marked(kids.tail, isCode) == [])
      && KidTailsAreBlankInCode(kids.rest, isCode, inCode)
  }

  /** Extraction loses and moves no visible character, and keeps every flag exactly when no
      visible text follows a child inside an outermost `code` element. */
  lemma {:induction false} ExtractionKeepsText(e: Element, inCode: bool)
    ensures SameChars(AllMarked(Segments(e, inCode)), Visible(e, inCode))
    ensures AllMarked(Segments(e, inCode)) == Visible(e, inCode) <==> TailsAreBlankInCode(e, inCode)
    decreases e
  {
    var isCode := inCode || IsCode(e.tag);
    var own, kids := Piece(e.text, isCode), KidSegments(e.kids, isCode, inCode);
    PieceMarked(e.text, isCode);
    AllMarkedConcat(own, kids);
    KidExtractionKeepsText(e.kids, isCode, inCode);
    SameCharsConcat(AllMarked(own), AllMarked(kids), Marked(e.text, isCode), KidsVisible(e.kids, isCode));
  }

  lemma {:induction false} KidExtractionKeepsText(kids: Kids, isCode: bool, inCode: bool)
    ensures SameChars(AllMarked(KidSegments(kids, isCode, inCode)), KidsVisible(kids, isCode))
    ensures AllMarked(KidSegments(kids, isCode, inCode)) == KidsVisible(kids, isCode) <==>
      KidTailsAreBlankInCode(kids, isCode, inCode)
    decreases kids
  {
    if kids.Kid? {
      var first, tail := Segments(kids.first, isCode), Piece(kids.tail, inCode);
      var rest := KidSegments(kids.rest, isCode, inCode);
      ExtractionKeepsText(kids.first, isCode);
      KidExtractionKeepsText(kids.rest, isCode, inCode);
      PieceMarked(kids.tail, inCode);
      AllMarkedConcat(first, tail + rest);
      AllMarkedConcat(tail, rest);
      SameCharsMarked(kids.tail, inCode, isCode);
      SameCharsConcat(AllMarked(tail), AllMarked(rest), Marked(kids.tail, isCode), KidsVisible(kids.rest, isCode));
      SameCharsConcat(AllMarked(first), AllMarked(tail + rest),
        Visible(kids.first, isCode), Marked(kids.tail, isCode) + KidsVisible(kids.rest, isCode));
    }
  }

  lemma {:induction false} ExtractsNoneEmpty(e: Element, inCode: bool)
    ensures NoneEmpty(Segments(e, inCode))
    decreases e
  {
    KidsExtractNoneEmpty(e.kids, inCode || IsCode(e.tag), inCode);
  }

  lemma {:induction false} KidsExtractNoneEmpty(kids: Kids, isCode: bool, inCode: bool)
    ensures NoneEmpty(KidSegments(kids, isCode, inCode))
    decreases kids
  {
    if kids.Kid? {
      ExtractsNoneEmpty(kids.first, isCode);
      KidsExtractNoneEmpty(kids.rest, isCode, inCode);
    }
  }

  // ----- normalize_segments -----

  /** `re.sub(r"\s+", " ", s)` */
  function Squeeze(s: string): (r: string)
    ensures s != "" ==> r != ""
    decreases |s|
  {
    if s == "" then ""
    else if IsSpace(s[0]) then " " + Squeeze(DropSpaces(s[1..]))
    else [s[0]] + Squeeze(s[1..])
  }

  function Squeezed(segs: seq<Segment>): (r: seq<Segment>)
    ensures |r| == |segs| && forall i :: 0 <= i < |segs| ==> r[i] == Segment(Squeeze(segs[i].text), segs[i].code)
  {
    seq(|segs|, i requires 0 <= i < |segs| => Segment(Squeeze(segs[i].text), segs[i].code))
  }

  function MergeOne(merged: seq<Segment>, s: Segment): seq<Segment> {
    var n := |merged|;
    if n > 0 && merged[n - 1].code == s.code then merged[..n - 1] + [Segment(merged[n - 1].text + s.text, s.code)]
    else merged + [s]
  }

  function Merged(segs: seq<Segment>): seq<Segment> {
    if segs == [] then [] else MergeOne(Merged(segs[..|segs| - 1]), segs[|segs| - 1])
  }

  function TrimFirst(segs: seq<Segment>): seq<Segment>
    requires segs != []
  {
    [Segment(DropSpaces(segs[0].text), segs[0].code)] + segs[1..]
  }

  function TrimLast(segs: seq<Segment>): seq<Segment>
    requires segs != []
  {
    var n := |segs| - 1;
    segs[..n] + [Segment(DropTrailingSpaces(segs[n].text), segs[n].code)]
  }

  function OnlyNonEmpty(segs: seq<Segment>): seq<Segment> {
    if segs == [] then [] else Piece(segs[0].text, segs[0].code) + OnlyNonEmpty(segs[1..])
  }

  function Normalized(segs: seq<Segment>): seq<Segment> {
    var merged := Merged(Squeezed(segs));
    OnlyNonEmpty(if merged == [] then [] else TrimLast(TrimFirst(merged)))
  }

  method NormalizeSegments(segs: seq<Segment>) returns (out: seq<Segment>)
    ensures out == Normalized(segs)
  {
    var norm := Squeezed(segs);
    var merged: seq<Segment> := [];
    for i := 0 to |norm|
      invariant merged == Merged(norm[..i])
    {
      assert norm[..i + 1][..i] == norm[..i];
      var s := norm[i];
      if merged != [] && merged[|merged| - 1].code == s.code {
        var previous := merged[|merged| - 1];
        merged := merged[..|merged| - 1] + [Segment(previous.text + s.text, previous.code)];
      } else {
        merged := merged + [s];
      }
    }
    assert norm[..|norm|] == norm;
    if merged != [] {
      merged := [Segment(DropSpaces(merged[0].text), merged[0].code)] + merged[1..];
      var last := merged[|merged| - 1];
      merged := merged[..|merged| - 1] + [Segment(DropTrailingSpaces(last.text), last.code)];
    }
    out := OnlyNonEmpty(merged);
  }

  lemma {:induction false} DropSpacesMarked(s: string, code: bool)
    ensures Marked(DropSpaces(s), code) == Marked(s, code)
    decreases |s|
  {
    if s != "" && IsSpace(s[0]) { DropSpacesMarked(s[1..], code); }
  }

  lemma {:induction false} DropTrailingSpacesMarked(s: string, code: bool)
    ensures Marked(DropTrailingSpaces(s), code) == Marked(s, code)
    decreases |s|
  {
    if s != "" && IsSpace(s[|s| - 1]) {
      var front, last := s[..|s| - 1], s[|s| - 1..];
      DropTrailingSpacesMarked(front, code);
      MarkedConcat(front, last, code);
      assert s == front + last && Marked(last, code) == Marked(last[1..], code) && last[1..] == "";
    }
  }

  lemma {:induction false} SqueezeMarked(s: string, code: bool)
    ensures Marked(Squeeze(s), code) == Marked(s, code)
    decreases |s|
  {
    if s != "" {
      var tail := if IsSpace(s[0]) then DropSpaces(s[1..]) else s[1..];
      SqueezeMarked(tail, code);
      DropSpacesMarked(s[1..], code);
      assert Squeeze(s)[1..] == Squeeze(tail);
    }
  }

  lemma {:induction false} SqueezedMarked(segs: seq<Segment>)
    ensures AllMarked(Squeezed(segs)) == AllMarked(segs)
    decreases |segs|
  {
    if segs != [] {
      SqueezeMarked(segs[0].text, segs[0].code);
      SqueezedMarked(segs[1..]);
      assert Squeezed(segs)[1..] == Squeezed(segs[1..]);
    }
  }

  lemma OneMarked(s: Segment)
    ensures AllMarked([s]) == Marked(s.text, s.code)
  {
    assert [s][1..] == [];
  }

  lemma {:induction false} AllMarkedLast(segs: seq<Segment>)
    requires segs != []
    ensures AllMarked(segs) == AllMarked(segs[..|segs| - 1]) + AllMarked([segs[|segs| - 1]])
  {
    var front, last := segs[..|segs| - 1], segs[|segs| - 1];
    assert front + [last] == segs;
    AllMarkedConcat(front, [last]);
  }

  lemma MergeOneMarked(merged: seq<Segment>, s: Segment)
    ensures AllMarked(MergeOne(merged, s)) == AllMarked(merged) + AllMarked([s])
  {
    var n := |merged|;
    if n > 0 && merged[n - 1].code == s.code {
      var front, last := merged[..n - 1], merged[n - 1];
      assert merged == front + [last];
      AllMarkedConcat(front, [last]);
      AllMarkedConcat(front, [Segment(last.text + s.text, s.code)]);
      MarkedConcat(last.text, s.text, s.code);
      OneMarked(s);
      OneMarked(last);
      OneMarked(Segment(last.text + s.text, s.code));
      Associates(AllMarked(front), AllMarked([last]), AllMarked([s]));
    } else {
      AllMarkedConcat(merged, [s]);
    }
  }

  lemma {:induction false} MergedMarked(segs: seq<Segment>)
    ensures AllMarked(Merged(segs)) == AllMarked(segs)
    decreases |segs|
  {
    if segs != [] {
      var front, last := segs[..|segs| - 1], segs[|segs| - 1];
      MergedMarked(front);
      MergeOneMarked(Merged(front), last);
      AllMarkedLast(segs);
    }
  }

  lemma TrimmedMarked(segs: seq<Segment>)
    requires segs != []
    ensures AllMarked(TrimFirst(segs)) == AllMarked(segs) == AllMarked(TrimLast(segs))
  {
    DropSpacesMarked(segs[0].text, segs[0].code);
    assert TrimFirst(segs)[1..] == segs[1..];
    var front, last := segs[..|segs| - 1], segs[|segs| - 1];
    var trimmed := Segment(DropTrailingSpaces(last.text), last.code);
    DropTrailingSpacesMarked(last.text, last.code);
    OneMarked(last);
    OneMarked(trimmed);
    AllMarkedConcat(front, [last]);
    AllMarkedConcat(front, [trimmed]);
    assert segs == front + [last];
  }

  lemma {:induction false} OnlyNonEmptyMarked(segs: seq<Segment>)
    ensures AllMarked(OnlyNonEmpty(segs)) == AllMarked(segs)
    decreases |segs|
  {
    if segs != [] {
      OnlyNonEmptyMarked(segs[1..]);
      PieceMarked(segs[0].text, segs[0].code);
      AllMarkedConcat(Piece(segs[0].text, segs[0].code), OnlyNonEmpty(segs[1..]));
    }
  }

  /** Squeezing, merging, trimming and dropping keep every visible character and its flag. */
  lemma NormalizationKeepsText(segs: seq<Segment>)
    ensures AllMarked(Normalized(segs)) == AllMarked(segs)
  {
    var merged := Merged(Squeezed(segs));
    SqueezedMarked(segs);
    MergedMarked(Squeezed(segs));
    if merged != [] {
      TrimmedMarked(merged);
      TrimmedMarked(TrimFirst(merged));
      OnlyNonEmptyMarked(TrimLast(TrimFirst(merged)));
    }
  }

  lemma MergeOneAlternates(merged: seq<Segment>, s: Segment)
    requires NoneEmpty(merged) && Alternating(merged) && s.text != ""
    ensures NoneEmpty(MergeOne(merged, s)) && Alternating(MergeOne(merged, s))
  {
  }

  lemma {:induction false} MergedAlternates(segs: seq<Segment>)
    requires NoneEmpty(segs)
    ensures NoneEmpty(Merged(segs)) && Alternating(Merged(segs))
    decreases |segs|
  {
    if segs != [] {
      MergedAlternates(segs[..|segs| - 1]);
      MergeOneAlternates(Merged(segs[..|segs| - 1]), segs[|segs| - 1]);
    }
  }

  lemma {:induction false} OnlyLastDropped(segs: seq<Segment>)
    requires forall i :: 0 <= i < |segs| - 1 ==> segs[i].text != ""
    ensures OnlyNonEmpty(segs) <= segs && NoneEmpty(OnlyNonEmpty(segs))
    decreases |segs|
  {
    if segs != [] {
      var rest := segs[1..];
      OnlyLastDropped(rest);
      if segs[0].text == "" { assert rest == []; }
    }
  }

  lemma StartsAlternate(segs: seq<Segment>, kept: seq<Segment>)
    requires segs != [] && Alternating(segs) && kept <= segs[1..]
    ensures Alternating(kept) && Alternating([segs[0]] + kept)
  {
    var both := [segs[0]] + kept;
    forall i, j | 0 <= i < |both| && j == i + 1 < |both| ensures both[i].code != both[j].code {
      assert both[i] == segs[i] && both[j] == segs[j];
    }
    assert kept == both[1..];
  }

  lemma {:induction false} OnlyEndsDropped(segs: seq<Segment>)
    requires Alternating(segs) && forall i :: 0 < i < |segs| - 1 ==> segs[i].text != ""
    ensures Alternating(OnlyNonEmpty(segs)) && NoneEmpty(OnlyNonEmpty(segs))
  {
    if segs != [] {
      var kept := OnlyNonEmpty(segs[1..]);
      OnlyLastDropped(segs[1..]);
      StartsAlternate(segs, kept);
      if segs[0].text == "" {
        assert OnlyNonEmpty(segs) == kept;
      } else {
        assert OnlyNonEmpty(segs) == [segs[0]] + kept;
        assert NoneEmpty([segs[0]] + kept);
      }
    }
  }

  lemma NormalizedAlternates(segs: seq<Segment>)
    requires NoneEmpty(segs)
    ensures Alternating(Normalized(segs)) && NoneEmpty(Normalized(segs))
  {
    var merged := Merged(Squeezed(segs));
    MergedAlternates(Squeezed(segs));
    if merged != [] {
      OnlyEndsDropped(TrimLast(TrimFirst(merged)));
    }
  }

  // ----- the text element -----

  datatype Span = Span(text: string, tail: string)

  /** A `text` element: its own text, then `tspan` elements, each with the text behind it. */
  datatype Label = Label(text: string, spans: seq<Span>)

  function AddTo(built: Label, s: Segment): Label {
    var n := |built.spans|;
    if s.code then built.(spans := built.spans + [Span(s.text, "")])
    else if n == 0 then built.(text := built.text + s.text)
    else built.(spans := built.spans[n - 1 := Span(built.spans[n - 1].text, built.spans[n - 1].tail + s.text)])
  }

  function Built(segs: seq<Segment>): Label {
    if segs == [] then Label("", []) else AddTo(Built(segs[..|segs| - 1]), segs[|segs| - 1])
  }

  method BuildLabel(segs: seq<Segment>) returns (built: Label)
    ensures built == Built(segs)
  {
    var text := "";
    var spans: seq<Span> := [];
    for i := 0 to |segs|
      invariant Label(text, spans) == Built(segs[..i])
    {
      assert segs[..i + 1][..i] == segs[..i];
      var s := segs[i];
      if s.code {
        spans := spans + [Span(s.text, "")];
      } else if spans == [] {
        text := text + s.text;
      } else {
        var last := spans[|spans| - 1];
        spans := spans[|spans| - 1 := Span(last.text, last.tail + s.text)];
      }
    }
    assert segs[..|segs|] == segs;
    built := Label(text, spans);
  }

  function ReadSpans(spans: seq<Span>): seq<Segment> {
    if spans == [] then []
    else
      var last := spans[|spans| - 1];
      ReadSpans(spans[..|spans| - 1]) + [Segment(last.text, true)] + Piece(last.tail, false)
  }

  /** What a reader of the element finds, in document order. */
  function ReadBack(built: Label): seq<Segment> {
    Piece(built.text, false) + ReadSpans(built.spans)
  }

  lemma ReadAfterCode(built: Label, s: Segment)
    requires s.code
    ensures ReadBack(AddTo(built, s)) == ReadBack(built) + [s]
  {
    assert (built.spans + [Span(s.text, "")])[..|built.spans|] == built.spans;
  }

  lemma ReadAfterPlain(built: Label, s: Segment)
    requires !s.code && s.text != ""
    requires if built.spans == [] then built.text == "" else built.spans[|built.spans| - 1].tail == ""
    ensures ReadBack(AddTo(built, s)) == ReadBack(built) + [s]
  {
    var n := |built.spans|;
    if n > 0 {
      var spans := AddTo(built, s).spans;
      assert spans[..n - 1] == built.spans[..n - 1];
      assert spans[n - 1] == Span(built.spans[n - 1].text, s.text);
      assert ReadSpans(spans) == ReadSpans(built.spans) + [s];
    } else {
      assert built.text + s.text == s.text && Piece(s.text, false) == [s];
    }
  }

  /** Reading `text`, `tspan` and `tail` back yields the segments the label was built from. */
  lemma {:induction false} ReadBackInvertsBuilt(segs: seq<Segment>)
    requires Alternating(segs) && NoneEmpty(segs)
    ensures ReadBack(Built(segs)) == segs
    ensures segs == [] ==> Built(segs) == Label("", [])
    ensures
      var spans := Built(segs).spans;
      segs != [] && segs[|segs| - 1].code ==> spans != [] && spans[|spans| - 1].tail == ""
    decreases |segs|
  {
    if segs != [] {
      var front, last := segs[..|segs| - 1], segs[|segs| - 1];
      ReadBackInvertsBuilt(front);
      assert segs == front + [last];
      if last.code {
        ReadAfterCode(Built(front), last);
      } else {
        ReadAfterPlain(Built(front), last);
      }
    }
  }

  /** From an HTML tree to its label: every visible character arrives, in order; reading the label
      back gives segments that alternate between text and code; and the flags are those of the
      document exactly when no visible text follows a child inside an outermost `code`. */
  lemma LabelKeepsText(e: Element)
    ensures
      var segs := Normalized(Segments(e, false));
      && ReadBack(Built(segs)) == segs && Alternating(segs) && NoneEmpty(segs)
      && SameChars(AllMarked(segs), Visible(e, false))
      && (AllMarked(segs) == Visible(e, false) <==> TailsAreBlankInCode(e, false))
      && (segs == [] ==> Visible(e, false) == [])
  {
    var segs := Normalized(Segments(e, false));
    ExtractsNoneEmpty(e, false);
    NormalizedAlternates(Segments(e, false));
    ReadBackInvertsBuilt(segs);
    NormalizationKeepsText(Segments(e, false));
    ExtractionKeepsText(e, false);
  }

  predicate CodeHasNoElements(e: Element) {
    (IsCode(e.tag) ==> e.kids.NoKids?) && KidsCodeHasNoElements(e.kids)
  }

  predicate KidsCodeHasNoElements(kids: Kids) {
    kids.Kid? ==> CodeHasNoElements(kids.first) && KidsCodeHasNoElements(kids.rest)
  }

  lemma {:induction false} PlainCodeKeepsFlags(e: Element, inCode: bool)
    requires CodeHasNoElements(e)
    ensures TailsAreBlankInCode(e, inCode)
    decreases e
  {
    if !IsCode(e.tag) { KidsPlainCodeKeepsFlags(e.kids, inCode); }
  }

  lemma {:induction false} KidsPlainCodeKeepsFlags(kids: Kids, inCode: bool)
    requires KidsCodeHasNoElements(kids)
    ensures KidTailsAreBlankInCode(kids, inCode, inCode)
    decreases kids
  {
    if kids.Kid? {
      PlainCodeKeepsFlags(kids.first, inCode);
      KidsPlainCodeKeepsFlags(kids.rest, inCode);
    }
  }

  /** `<code><b>a</b>x</code>`: the `x` behind the child loses its flag. */
  function CodeWithTail(): Element {
    Element("foreignObject", "", Kid(Element("code", "", Kid(Element("b", "a", NoKids), "x", NoKids)), "", NoKids))
  }

  lemma CodeTagIsCode()
    ensures IsCode("code") && !IsCode("foreignObject") && !IsCode("b")
  {
    assert LocalName("c") == "c" by { assert LocalName("") + "c" == "c"; }
    assert LocalName("co") == "co" by { assert "co"[..1] == "c"; }
    assert LocalName("cod") == "cod" by { assert "cod"[..2] == "co"; }
    assert LocalName("code") == "code" by { assert "code"[..3] == "cod"; }
    assert |LocalName("b")| <= 1;
  }

  lemma {:induction false} ATailLosesItsFlag()
    ensures !TailsAreBlankInCode(CodeWithTail(), false)
    ensures AllMarked(Segments(CodeWithTail(), false)) != Visible(CodeWithTail(), false)
  {
    CodeTagIsCode();
    ExtractionKeepsText(CodeWithTail(), false);
    assert Marked("x", true) == [('x', true)] + Marked("", true);
    assert !KidTailsAreBlankInCode(Kid(Element("b", "a", NoKids), "x", NoKids), true, false);
  }
}
