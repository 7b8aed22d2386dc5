/** What `normalize_segments` of `scripts/render_d2.py` does to whitespace: which words stay apart, and
    how wide the gaps between them are. */
module D2Words {
  import opened Texts
  import opened D2Labels

  // ----- words -----

  function JoinedText(segs: seq<Segment>): string {
    if segs == [] then "" else segs[0].text + JoinedText(segs[1..])
  }

  /** The visible characters of `s`, each with whether it begins a word; `apart` if whitespace or
      nothing precedes `s`. */
  function Words(s: string, apart: bool): seq<(char, bool)> {
    if s == "" then []
    else if IsSpace(s[0]) then Words(s[1..], true)
    else [(s[0], apart)] + Words(s[1..], false)
  }

  function ApartAfter(s: string, apart: bool): bool {
    if s == "" then apart else ApartAfter(s[1..], IsSpace(s[0]))
  }

  lemma {:induction false} WordsConcat(s: string, t: string, apart: bool)
    ensures Words(s + t, apart) == Words(s, apart) + Words(t, ApartAfter(s, apart))
    ensures ApartAfter(s + t, apart) == ApartAfter(t, ApartAfter(s, apart))
    decreases |s|
  {
    if s == "" {
      assert s + t == t;
    } else {
      WordsConcat(s[1..], t, IsSpace(s[0]));
      assert (s + t)[1..] == s[1..] + t;
      if !IsSpace(s[0]) {
        Associates([(s[0], apart)], Words(s[1..], false), Words(t, ApartAfter(s[1..], false)));
      }
    }
  }

  lemma {:induction false} DropSpacesWords(s: string)
    ensures Words(DropSpaces(s), true) == Words(s, true) && ApartAfter(DropSpaces(s), true) == ApartAfter(s, true)
    decreases |s|
  {
    if s != "" && IsSpace(s[0]) { DropSpacesWords(s[1..]); }
  }

  lemma {:induction false} BlankWords(s: string, apart: bool)
    requires forall i :: 0 <= i < |s| ==> IsSpace(s[i])
    ensures Words(s, apart) == []
    decreases |s|
  {
    if s != "" { BlankWords(s[1..], true); }
  }

  /** What `rstrip` removes is whitespace. */
  lemma {:induction false} TrailingIsBlank(s: string)
    ensures forall i :: |DropTrailingSpaces(s)| <= i < |s| ==> IsSpace(s[i])
    decreases |s|
  {
    if s != "" && IsSpace(s[|s| - 1]) { TrailingIsBlank(s[..|s| - 1]); }
  }

  lemma SplitTrailing(s: string)
    ensures
      var front, blank := DropTrailingSpaces(s), s[|DropTrailingSpaces(s)|..];
      s == front + blank && forall i :: 0 <= i < |blank| ==> IsSpace(blank[i])
  {
    TrailingIsBlank(s);
  }

  lemma DropTrailingWords(s: string, apart: bool)
    ensures Words(DropTrailingSpaces(s), apart) == Words(s, apart)
  {
    var front, blank := DropTrailingSpaces(s), s[|DropTrailingSpaces(s)|..];
    SplitTrailing(s);
    WordsConcat(front, blank, apart);
    BlankWords(blank, ApartAfter(front, apart));
  }

  lemma {:induction false} SqueezeWords(s: string, apart: bool)
    ensures Words(Squeeze(s), apart) == Words(s, apart) && ApartAfter(Squeeze(s), apart) == ApartAfter(s, apart)
    decreases |s|
  {
    if s != "" {
      var tail := if IsSpace(s[0]) then DropSpaces(s[1..]) else s[1..];
      SqueezeWords(tail, IsSpace(s[0]));
      DropSpacesWords(s[1..]);
      assert Squeeze(s)[1..] == Squeeze(tail);
    }
  }

  lemma {:induction false} SqueezedWords(segs: seq<Segment>, apart: bool)
    ensures Words(JoinedText(Squeezed(segs)), apart) == Words(JoinedText(segs), apart)
    decreases |segs|
  {
    if segs != [] {
      var s := segs[0].text;
      assert Squeezed(segs)[1..] == Squeezed(segs[1..]);
      SqueezeWords(s, apart);
      SqueezedWords(segs[1..], ApartAfter(s, apart));
      WordsConcat(s, JoinedText(segs[1..]), apart);
      WordsConcat(Squeeze(s), JoinedText(Squeezed(segs[1..])), apart);
    }
  }

  lemma {:induction false} JoinedTextConcat(a: seq<Segment>, b: seq<Segment>)
    ensures JoinedText(a + b) == JoinedText(a) + JoinedText(b)
    decreases |a|
  {
    if a == [] {
      assert a + b == b;
    } else {
      JoinedTextConcat(a[1..], b);
      assert (a + b)[1..] == a[1..] + b;
      Associates(a[0].text, JoinedText(a[1..]), JoinedText(b));
    }
  }

  lemma OneText(s: Segment)
    ensures JoinedText([s]) == s.text
  {
    assert [s][1..] == [] && s.text + "" == s.text;
  }

  lemma JoinedTextLast(segs: seq<Segment>)
    requires segs != []
    ensures JoinedText(segs) == JoinedText(segs[..|segs| - 1]) + segs[|segs| - 1].text
  {
    var front, last := segs[..|segs| - 1], segs[|segs| - 1];
    assert segs == front + [last];
    JoinedTextConcat(front, [last]);
    OneText(last);
  }

  lemma {:induction false} MergedText(segs: seq<Segment>)
    ensures JoinedText(Merged(segs)) == JoinedText(segs)
    decreases |segs|
  {
    if segs != [] {
      var front, last := Merged(segs[..|segs| - 1]), segs[|segs| - 1];
      var merged := MergeOne(front, last);
      MergedText(segs[..|segs| - 1]);
      JoinedTextLast(segs);
      JoinedTextLast(merged);
      if |merged| == |front| {
        JoinedTextLast(front);
        assert merged[..|merged| - 1] == front[..|front| - 1];
        Associates(JoinedText(front[..|front| - 1]), front[|front| - 1].text, last.text);
      } else {
        assert merged[..|merged| - 1] == front;
      }
    }
  }

  lemma {:induction false} OnlyNonEmptyText(segs: seq<Segment>)
    ensures JoinedText(OnlyNonEmpty(segs)) == JoinedText(segs)
    decreases |segs|
  {
    if segs != [] {
      OnlyNonEmptyText(segs[1..]);
      JoinedTextConcat(Piece(segs[0].text, segs[0].code), OnlyNonEmpty(segs[1..]));
      OneText(segs[0]);
      assert Piece(segs[0].text, segs[0].code) == if segs[0].text == "" then [] else [segs[0]];
    }
  }

  lemma TrimFirstWords(segs: seq<Segment>)
    requires segs != []
    ensures Words(JoinedText(TrimFirst(segs)), true) == Words(JoinedText(segs), true)
  {
    var s, rest := segs[0].text, JoinedText(segs[1..]);
    assert TrimFirst(segs)[1..] == segs[1..];
    DropSpacesWords(s);
    WordsConcat(s, rest, true);
    WordsConcat(DropSpaces(s), rest, true);
  }

  lemma TrimLastWords(segs: seq<Segment>)
    requires segs != []
    ensures Words(JoinedText(TrimLast(segs)), true) == Words(JoinedText(segs), true)
  {
    var n := |segs| - 1;
    var front := JoinedText(segs[..n]);
    assert TrimLast(segs)[..n] == segs[..n];
    JoinedTextLast(segs);
    JoinedTextLast(TrimLast(segs));
    DropTrailingWords(segs[n].text, ApartAfter(front, true));
    WordsConcat(front, segs[n].text, true);
    WordsConcat(front, DropTrailingSpaces(segs[n].text), true);
  }

  /** The normal form has the same words as the text: two consecutive visible characters are apart in
      one exactly if they are apart in the other, also across segments. */
  lemma NormalizationKeepsWords(segs: seq<Segment>)
    ensures Words(JoinedText(Normalized(segs)), true) == Words(JoinedText(segs), true)
  {
    var merged := Merged(Squeezed(segs));
    SqueezedWords(segs, true);
    MergedText(Squeezed(segs));
    if merged != [] {
      TrimFirstWords(merged);
      TrimLastWords(TrimFirst(merged));
      OnlyNonEmptyText(TrimLast(TrimFirst(merged)));
    }
  }

  /** `"".join(e.itertext())` */
  function TextOf(e: Element): string {
    e.text + KidsText(e.kids)
  }

  function KidsText(kids: Kids): string {
    match kids
    case NoKids => ""
    case Kid(first, tail, rest) => TextOf(first) + (tail + KidsText(rest))
  }

  lemma PieceText(text: string, code: bool)
    ensures JoinedText(Piece(text, code)) == text
  {
    if text != "" { OneText(Segment(text, code)); }
  }

  lemma {:induction false} ExtractedText(e: Element, inCode: bool)
    ensures JoinedText(Segments(e, inCode)) == TextOf(e)
    decreases e
  {
    var isCode := inCode || IsCode(e.tag);
    KidsExtractedText(e.kids, isCode, inCode);
    PieceText(e.text, isCode);
    JoinedTextConcat(Piece(e.text, isCode), KidSegments(e.kids, isCode, inCode));
  }

  lemma {:induction false} KidsExtractedText(kids: Kids, isCode: bool, inCode: bool)
    ensures JoinedText(KidSegments(kids, isCode, inCode)) == KidsText(kids)
    decreases kids
  {
    if kids.Kid? {
      var rest := KidSegments(kids.rest, isCode, inCode);
      ExtractedText(kids.first, isCode);
      KidsExtractedText(kids.rest, isCode, inCode);
      PieceText(kids.tail, inCode);
      JoinedTextConcat(Piece(kids.tail, inCode), rest);
      JoinedTextConcat(Segments(kids.first, isCode), Piece(kids.tail, inCode) + rest);
    }
  }

  /** From an HTML tree to its label: the label reads word for word as the text of the tree. */
  lemma LabelKeepsWords(e: Element)
    ensures
      var built := Built(Normalized(Segments(e, false)));
      Words(JoinedText(ReadBack(built)), true) == Words(TextOf(e), true)
  {
    LabelKeepsText(e);
    NormalizationKeepsWords(Segments(e, false));
    ExtractedText(e, false);
  }

  // ----- gaps -----

  /** The widths of the gaps between consecutive visible characters of `s`; before `s` there were
      `width` characters of whitespace, and a visible one before them if `open`. */
  function Gaps(s: string, open: bool, width: nat): seq<nat> {
    if s == "" then []
    else if IsSpace(s[0]) then Gaps(s[1..], open, width + 1)
    else (if open then [width] else []) + Gaps(s[1..], true, 0)
  }

  function OpenAfter(s: string, open: bool): bool {
    if s == "" then open else OpenAfter(s[1..], open || !IsSpace(s[0]))
  }

  function WidthAfter(s: string, width: nat): nat {
    if s == "" then width else WidthAfter(s[1..], if IsSpace(s[0]) then width + 1 else 0)
  }

  /** The same, but counting stretches of whitespace instead of characters; `inside` one at first. */
  function Stretches(s: string, open: bool, count: nat, inside: bool): seq<nat> {
    if s == "" then []
    else if IsSpace(s[0]) then Stretches(s[1..], open, if inside then count else count + 1, true)
    else (if open then [count] else []) + Stretches(s[1..], true, 0, false)
  }

  function CountAfter(s: string, count: nat, inside: bool): nat {
    if s == "" then count
    else if IsSpace(s[0]) then CountAfter(s[1..], if inside then count else count + 1, true)
    else CountAfter(s[1..], 0, false)
  }

  /** The gaps inside each of the segments. */
  function InnerGaps(segs: seq<Segment>): seq<nat> {
    if segs == [] then [] else InnerGaps(segs[..|segs| - 1]) + Gaps(segs[|segs| - 1].text, false, 0)
  }

  datatype Run = Run(open: bool, count: nat)

  /** How the last run of segments with one flag ends. */
  function RunAfter(segs: seq<Segment>): Run
    decreases |segs|, 0
  {
    if segs == [] then Run(false, 0)
    else
      var last := segs[|segs| - 1];
      var before := RunBefore(segs[..|segs| - 1], last.code);
      Run(OpenAfter(last.text, before.open), CountAfter(last.text, before.count, false))
  }

  /** How the run ends that a segment with this flag continues. */
  function RunBefore(segs: seq<Segment>, code: bool): Run
    decreases |segs|, 1
  {
    if segs == [] || segs[|segs| - 1].code != code then Run(false, 0) else RunAfter(segs)
  }

  /** The gaps inside each run of segments with one flag, counted in stretches of whitespace; a segment
      begins a new stretch. */
  function RunGaps(segs: seq<Segment>): seq<nat> {
    if segs == [] then []
    else
      var last := segs[|segs| - 1];
      var before := RunBefore(segs[..|segs| - 1], last.code);
      RunGaps(segs[..|segs| - 1]) + Stretches(last.text, before.open, before.count, false)
  }

  lemma {:induction false} GapsConcat(s: string, t: string, open: bool, width: nat)
    ensures Gaps(s + t, open, width) == Gaps(s, open, width) + Gaps(t, OpenAfter(s, open), WidthAfter(s, width))
    ensures OpenAfter(s + t, open) == OpenAfter(t, OpenAfter(s, open))
    ensures WidthAfter(s + t, width) == WidthAfter(t, WidthAfter(s, width))
    decreases |s|
  {
    if s == "" {
      assert s + t == t;
    } else {
      assert (s + t)[1..] == s[1..] + t;
      if IsSpace(s[0]) {
        GapsConcat(s[1..], t, open, width + 1);
      } else {
        GapsConcat(s[1..], t, true, 0);
        Associates(if open then [width] else [], Gaps(s[1..], true, 0),
          Gaps(t, OpenAfter(s[1..], true), WidthAfter(s[1..], 0)));
      }
    }
  }

  /** Inside a stretch further whitespace does not count. */
  lemma {:induction false} StretchGoesOn(s: string, open: bool, count: nat)
    ensures Stretches(DropSpaces(s), open, count, false) == Stretches(s, open, count, true)
    ensures CountAfter(DropSpaces(s), count, false) == CountAfter(s, count, true)
    ensures OpenAfter(DropSpaces(s), open) == OpenAfter(s, open)
    decreases |s|
  {
    if s != "" && IsSpace(s[0]) { StretchGoesOn(s[1..], open, count); }
  }

  /** Squeezed, every stretch is one character wide. */
  lemma {:induction false} SqueezeGaps(s: string, open: bool, count: nat)
    ensures Gaps(Squeeze(s), open, count) == Stretches(s, open, count, false)
    ensures OpenAfter(Squeeze(s), open) == OpenAfter(s, open)
    ensures WidthAfter(Squeeze(s), count) == CountAfter(s, count, false)
    decreases |s|
  {
    if s != "" {
      if IsSpace(s[0]) {
        var tail := DropSpaces(s[1..]);
        SqueezeGaps(tail, open, count + 1);
        StretchGoesOn(s[1..], open, count + 1);
        assert Squeeze(s)[1..] == Squeeze(tail);
      } else {
        SqueezeGaps(s[1..], true, 0);
        assert Squeeze(s)[1..] == Squeeze(s[1..]);
      }
    }
  }

  /** Merging has kept the gaps, and the last merged segment ends as the last run does. */
  ghost predicate Keeps(merged: seq<Segment>, segs: seq<Segment>) {
    && InnerGaps(merged) == RunGaps(segs)
    && (merged == [] <==> segs == [])
    && (segs != [] ==>
          && merged[|merged| - 1].code == segs[|segs| - 1].code
          && Run(OpenAfter(merged[|merged| - 1].text, false), WidthAfter(merged[|merged| - 1].text, 0))
            == RunAfter(segs))
  }

  lemma MergeKeeps(merged: seq<Segment>, front: seq<Segment>, last: Segment)
    requires Keeps(merged, front)
    ensures Keeps(MergeOne(merged, Segment(Squeeze(last.text), last.code)), front + [last])
  {
    var segs, squeezed := front + [last], Squeeze(last.text);
    var before := RunBefore(front, last.code);
    assert segs[..|segs| - 1] == front;
    SqueezeGaps(last.text, before.open, before.count);
    var n := |merged|;
    if n > 0 && merged[n - 1].code == last.code {
      var joined := Segment(merged[n - 1].text + squeezed, last.code);
      GapsConcat(merged[n - 1].text, squeezed, false, 0);
      assert (merged[..n - 1] + [joined])[..n - 1] == merged[..n - 1];
      Associates(InnerGaps(merged[..n - 1]), Gaps(merged[n - 1].text, false, 0),
        Gaps(squeezed, before.open, before.count));
    } else {
      assert (merged + [Segment(squeezed, last.code)])[..n] == merged;
    }
  }

  lemma SqueezedLast(segs: seq<Segment>)
    requires segs != []
    ensures
      var front, last := segs[..|segs| - 1], segs[|segs| - 1];
      Merged(Squeezed(segs)) == MergeOne(Merged(Squeezed(front)), Segment(Squeeze(last.text), last.code))
  {
    assert Squeezed(segs)[..|segs| - 1] == Squeezed(segs[..|segs| - 1]);
  }

  lemma {:induction false} MergedKeeps(segs: seq<Segment>)
    ensures Keeps(Merged(Squeezed(segs)), segs)
    decreases |segs|
  {
    if segs != [] {
      var front, last := segs[..|segs| - 1], segs[|segs| - 1];
      MergedKeeps(front);
      MergeKeeps(Merged(Squeezed(front)), front, last);
      SqueezedLast(segs);
      assert segs == front + [last];
    }
  }

  lemma {:induction false} LeadingIsNoGap(s: string, width: nat)
    ensures Gaps(DropSpaces(s), false, 0) == Gaps(s, false, width)
    decreases |s|
  {
    if s != "" && IsSpace(s[0]) { LeadingIsNoGap(s[1..], width + 1); }
  }

  lemma {:induction false} BlankIsNoGap(s: string, open: bool, width: nat)
    requires forall i :: 0 <= i < |s| ==> IsSpace(s[i])
    ensures Gaps(s, open, width) == []
    decreases |s|
  {
    if s != "" { BlankIsNoGap(s[1..], open, width + 1); }
  }

  lemma TrailingIsNoGap(s: string)
    ensures Gaps(DropTrailingSpaces(s), false, 0) == Gaps(s, false, 0)
  {
    var front, blank := DropTrailingSpaces(s), s[|DropTrailingSpaces(s)|..];
    SplitTrailing(s);
    GapsConcat(front, blank, false, 0);
    BlankIsNoGap(blank, OpenAfter(front, false), WidthAfter(front, 0));
  }

  lemma {:induction false} InnerGapsConcat(a: seq<Segment>, b: seq<Segment>)
    ensures InnerGaps(a + b) == InnerGaps(a) + InnerGaps(b)
    decreases |b|
  {
    if b == [] {
      assert a + b == a;
    } else {
      InnerGapsConcat(a, b[..|b| - 1]);
      assert (a + b)[..|a + b| - 1] == a + b[..|b| - 1];
      Associates(InnerGaps(a), InnerGaps(b[..|b| - 1]), Gaps(b[|b| - 1].text, false, 0));
    }
  }

  lemma OneInnerGap(s: Segment)
    ensures InnerGaps([s]) == Gaps(s.text, false, 0)
  {
    assert [s][..0] == [];
  }

  lemma TrimFirstGaps(segs: seq<Segment>)
    requires segs != []
    ensures InnerGaps(TrimFirst(segs)) == InnerGaps(segs)
  {
    var trimmed := Segment(DropSpaces(segs[0].text), segs[0].code);
    assert segs == [segs[0]] + segs[1..] && TrimFirst(segs) == [trimmed] + segs[1..];
    InnerGapsConcat([segs[0]], segs[1..]);
    InnerGapsConcat([trimmed], segs[1..]);
    OneInnerGap(segs[0]);
    OneInnerGap(trimmed);
    LeadingIsNoGap(segs[0].text, 0);
  }

  lemma TrimLastGaps(segs: seq<Segment>)
    requires segs != []
    ensures InnerGaps(TrimLast(segs)) == InnerGaps(segs)
  {
    var n := |segs| - 1;
    assert TrimLast(segs)[..n] == segs[..n];
    TrailingIsNoGap(segs[n].text);
  }

  lemma {:induction false} OnlyNonEmptyGaps(segs: seq<Segment>)
    ensures InnerGaps(OnlyNonEmpty(segs)) == InnerGaps(segs)
    decreases |segs|
  {
    if segs != [] {
      OnlyNonEmptyGaps(segs[1..]);
      assert segs == [segs[0]] + segs[1..];
      InnerGapsConcat([segs[0]], segs[1..]);
      InnerGapsConcat(Piece(segs[0].text, segs[0].code), OnlyNonEmpty(segs[1..]));
      OneInnerGap(segs[0]);
      assert Piece(segs[0].text, segs[0].code) == if segs[0].text == "" then [] else [segs[0]];
    }
  }

  /** Inside a segment of the normal form the gap between two visible characters is as wide as there
      are stretches of whitespace between them in the text: one space, unless the whitespace is spread
      over several segments with the same flag. */
  lemma GapsAreStretches(segs: seq<Segment>)
    ensures InnerGaps(Normalized(segs)) == RunGaps(segs)
  {
    var merged := Merged(Squeezed(segs));
    MergedKeeps(segs);
    if merged != [] {
      TrimFirstGaps(merged);
      TrimLastGaps(TrimFirst(merged));
      OnlyNonEmptyGaps(TrimLast(TrimFirst(merged)));
    }
  }

  /** `a <b></b> b`: the label has two spaces. */
  function SpacesOnBothSides(): Element {
    Element("p", "a ", Kid(Element("b", "", NoKids), " b", NoKids))
  }

  lemma ExtractedApart()
    ensures Segments(SpacesOnBothSides(), false) == [Segment("a ", false), Segment(" b", false)]
  {
    assert LocalName("p") == "p" by { assert LocalName("") + "p" == "p"; }
    assert |LocalName("b")| <= 1;
    assert Segments(Element("b", "", NoKids), false) == [];
  }

  lemma TwoStretches()
    ensures Stretches("a ", false, 0, false) == [] && Stretches(" b", true, 1, false) == [2]
    ensures OpenAfter("a ", false) && CountAfter("a ", 0, false) == 1
  {
    assert "a "[1..] == " " && " "[1..] == "" && " b"[1..] == "b" && "b"[1..] == "";
    assert Stretches(" b", true, 1, false) == [2] + Stretches("", true, 0, false);
  }

  lemma {:induction false} RunGapsOfTwo(first: Segment, second: Segment)
    requires first.code == second.code
    ensures
      var open, count := OpenAfter(first.text, false), CountAfter(first.text, 0, false);
      RunGaps([first, second]) == Stretches(first.text, false, 0, false) + Stretches(second.text, open, count, false)
  {
    assert [first][..0] == [] && RunBefore([], first.code) == Run(false, 0);
    assert RunAfter([first]) == Run(OpenAfter(first.text, false), CountAfter(first.text, 0, false));
    assert RunGaps([first]) == [] + Stretches(first.text, false, 0, false);
    assert [first, second][..1] == [first] && RunBefore([first], second.code) == RunAfter([first]);
  }

  lemma SpacesAddUp()
    ensures InnerGaps(Normalized(Segments(SpacesOnBothSides(), false))) == [2]
  {
    ExtractedApart();
    TwoStretches();
    RunGapsOfTwo(Segment("a ", false), Segment(" b", false));
    GapsAreStretches([Segment("a ", false), Segment(" b", false)]);
  }

  // ----- blanks and ends -----

  ghost predicate OnlyBlanks(segs: seq<Segment>) {
    forall i :: 0 <= i < |segs| ==> BlanksIn(segs[i].text)
  }

  /** The only whitespace in `s` are blanks. */
  ghost predicate BlanksIn(s: string) {
    forall k :: 0 <= k < |s| && IsSpace(s[k]) ==> s[k] == ' '
  }

  lemma {:induction false} SqueezeBlanks(s: string)
    ensures BlanksIn(Squeeze(s))
    decreases |s|
  {
    if s != "" { SqueezeBlanks(if IsSpace(s[0]) then DropSpaces(s[1..]) else s[1..]); }
  }

  lemma {:induction false} MergedBlanks(segs: seq<Segment>)
    requires OnlyBlanks(segs)
    ensures OnlyBlanks(Merged(segs))
    decreases |segs|
  {
    if segs != [] { MergedBlanks(segs[..|segs| - 1]); }
  }

  lemma {:induction false} DropSpacesIsSuffix(s: string)
    ensures DropSpaces(s) == s[|s| - |DropSpaces(s)|..]
    decreases |s|
  {
    if s != "" && IsSpace(s[0]) { DropSpacesIsSuffix(s[1..]); }
  }

  lemma {:induction false} OnlyNonEmptyBlanks(segs: seq<Segment>)
    requires OnlyBlanks(segs)
    ensures OnlyBlanks(OnlyNonEmpty(segs))
    decreases |segs|
  {
    if segs != [] { OnlyNonEmptyBlanks(segs[1..]); }
  }

  lemma TrimmedBlanks(segs: seq<Segment>)
    requires segs != [] && OnlyBlanks(segs)
    ensures OnlyBlanks(TrimFirst(segs)) && OnlyBlanks(TrimLast(segs))
  {
    var n := |segs| - 1;
    DropSpacesIsSuffix(segs[0].text);
    assert BlanksIn(DropSpaces(segs[0].text));
    assert BlanksIn(DropTrailingSpaces(segs[n].text));
  }

  /** Every tab, line break and other whitespace has become a blank. */
  lemma NormalizationLeavesBlanks(segs: seq<Segment>)
    ensures OnlyBlanks(Normalized(segs))
  {
    var merged := Merged(Squeezed(segs));
    forall i | 0 <= i < |segs| ensures BlanksIn(Squeezed(segs)[i].text) { SqueezeBlanks(segs[i].text); }
    MergedBlanks(Squeezed(segs));
    if merged != [] {
      TrimmedBlanks(merged);
      TrimmedBlanks(TrimFirst(merged));
      OnlyNonEmptyBlanks(TrimLast(TrimFirst(merged)));
    }
  }

  predicate HasVisible(s: string) {
    Marked(s, false) != []
  }

  predicate FirstIsVisible(s: string) {
    s != "" && !IsSpace(s[0])
  }

  predicate LastIsVisible(s: string) {
    s != "" && !IsSpace(s[|s| - 1])
  }

  /** Segment `k` is in the first run with one flag and has visible text. */
  ghost predicate ShowsFirst(segs: seq<Segment>, k: nat) {
    k < |segs| && HasVisible(segs[k].text) && forall i :: 0 <= i < k ==> segs[i].code == segs[k].code
  }

  /** Segment `k` is in the last run with one flag and has visible text. */
  ghost predicate ShowsLast(segs: seq<Segment>, k: nat) {
    k < |segs| && HasVisible(segs[k].text) && forall i :: k < i < |segs| ==> segs[i].code == segs[k].code
  }

  lemma VisibleConcat(s: string, t: string)
    ensures HasVisible(s + t) <==> HasVisible(s) || HasVisible(t)
  {
    MarkedConcat(s, t, false);
  }

  lemma {:induction false} SameFlagMerges(segs: seq<Segment>, code: bool)
    requires segs != [] && forall i :: 0 <= i < |segs| ==> segs[i].code == code
    ensures |Merged(segs)| == 1 && Merged(segs)[0].code == code
    decreases |segs|
  {
    if |segs| > 1 {
      SameFlagMerges(segs[..|segs| - 1], code);
    } else {
      assert Merged(segs[..0]) == [];
    }
  }

  lemma MergeOneFirst(merged: seq<Segment>, s: Segment)
    requires if merged == [] then HasVisible(s.text)
      else HasVisible(merged[0].text) || (|merged| == 1 && merged[0].code == s.code && HasVisible(s.text))
    ensures MergeOne(merged, s) != [] && HasVisible(MergeOne(merged, s)[0].text)
  {
    if merged != [] { VisibleConcat(merged[|merged| - 1].text, s.text); }
  }

  lemma {:induction false} FirstRunIsVisible(segs: seq<Segment>, k: nat)
    requires ShowsFirst(segs, k)
    ensures Merged(segs) != [] && HasVisible(Merged(segs)[0].text)
    decreases |segs|
  {
    var n := |segs| - 1;
    if k < n {
      FirstRunIsVisible(segs[..n], k);
    } else if k > 0 {
      SameFlagMerges(segs[..n], segs[k].code);
    }
    MergeOneFirst(Merged(segs[..n]), segs[n]);
  }

  /** The last segment has this flag and visible text. */
  predicate Shows(segs: seq<Segment>, code: bool) {
    segs != [] && segs[|segs| - 1].code == code && HasVisible(segs[|segs| - 1].text)
  }

  lemma MergeOneShows(merged: seq<Segment>, s: Segment)
    requires Shows(merged, s.code) || HasVisible(s.text)
    ensures Shows(MergeOne(merged, s), s.code)
  {
    if merged != [] { VisibleConcat(merged[|merged| - 1].text, s.text); }
  }

  lemma ShowsLastEarlier(segs: seq<Segment>, k: nat)
    requires ShowsLast(segs, k) && k < |segs| - 1
    ensures ShowsLast(segs[..|segs| - 1], k) && segs[|segs| - 1].code == segs[..|segs| - 1][k].code == segs[k].code
  {
  }

  lemma MergedLast(segs: seq<Segment>)
    requires segs != []
    ensures Merged(segs) == MergeOne(Merged(segs[..|segs| - 1]), segs[|segs| - 1])
  {
  }

  lemma {:induction false} LastRunIsVisible(segs: seq<Segment>, k: nat)
    requires ShowsLast(segs, k)
    ensures Shows(Merged(segs), segs[k].code)
    decreases |segs|
  {
    var front, last := segs[..|segs| - 1], segs[|segs| - 1];
    if k < |segs| - 1 {
      ShowsLastEarlier(segs, k);
      LastRunIsVisible(front, k);
    }
    MergeOneShows(Merged(front), last);
    MergedLast(segs);
  }

  lemma SqueezedShows(segs: seq<Segment>, k: nat)
    ensures ShowsFirst(segs, k) ==> ShowsFirst(Squeezed(segs), k)
    ensures ShowsLast(segs, k) ==> ShowsLast(Squeezed(segs), k)
  {
    if k < |segs| { SqueezeMarked(segs[k].text, false); }
  }

  lemma TrimmedVisible(s: string)
    requires HasVisible(s)
    ensures HasVisible(DropSpaces(s)) && FirstIsVisible(DropSpaces(s))
    ensures HasVisible(DropTrailingSpaces(s)) && LastIsVisible(DropTrailingSpaces(s))
    ensures FirstIsVisible(s) ==> FirstIsVisible(DropTrailingSpaces(s))
  {
    DropSpacesMarked(s, false);
    DropTrailingSpacesMarked(s, false);
  }

  lemma {:induction false} OnlyNonEmptyLast(segs: seq<Segment>)
    requires segs != [] && segs[|segs| - 1].text != ""
    ensures OnlyNonEmpty(segs) != [] && OnlyNonEmpty(segs)[|OnlyNonEmpty(segs)| - 1] == segs[|segs| - 1]
    decreases |segs|
  {
    if |segs| > 1 { OnlyNonEmptyLast(segs[1..]); }
  }

  lemma FirstTrimmed(merged: seq<Segment>)
    requires merged != [] && HasVisible(merged[0].text)
    ensures
      var out := OnlyNonEmpty(TrimLast(TrimFirst(merged)));
      out != [] && FirstIsVisible(out[0].text)
  {
    TrimmedVisible(merged[0].text);
    TrimmedVisible(DropSpaces(merged[0].text));
  }

  lemma TrimsToVisible(segs: seq<Segment>)
    requires segs != [] && HasVisible(segs[|segs| - 1].text)
    ensures HasVisible(TrimFirst(segs)[|segs| - 1].text)
    ensures TrimLast(segs) != [] && LastIsVisible(TrimLast(segs)[|segs| - 1].text)
  {
    TrimmedVisible(segs[|segs| - 1].text);
  }

  lemma LastTrimmed(merged: seq<Segment>)
    requires merged != [] && HasVisible(merged[|merged| - 1].text)
    ensures
      var out := OnlyNonEmpty(TrimLast(TrimFirst(merged)));
      out != [] && LastIsVisible(out[|out| - 1].text)
  {
    TrimsToVisible(merged);
    TrimsToVisible(TrimFirst(merged));
    OnlyNonEmptyLast(TrimLast(TrimFirst(merged)));
  }

  lemma BeginsVisibly(segs: seq<Segment>, k: nat)
    requires ShowsFirst(segs, k)
    ensures Normalized(segs) != [] && FirstIsVisible(Normalized(segs)[0].text)
  {
    SqueezedShows(segs, k);
    FirstRunIsVisible(Squeezed(segs), k);
    FirstTrimmed(Merged(Squeezed(segs)));
  }

  lemma EndsVisibly(segs: seq<Segment>, k: nat)
    requires ShowsLast(segs, k)
    ensures Normalized(segs) != [] && LastIsVisible(Normalized(segs)[|Normalized(segs)| - 1].text)
  {
    SqueezedShows(segs, k);
    LastRunIsVisible(Squeezed(segs), k);
    LastTrimmed(Merged(Squeezed(segs)));
  }

  /** If the first run with one flag has visible text, the normal form begins with a visible character,
      and if the last run has, it ends with one. */
  lemma EndsAreVisible(segs: seq<Segment>, k: nat)
    ensures
      var out := Normalized(segs);
      && (ShowsFirst(segs, k) ==> out != [] && FirstIsVisible(out[0].text))
      && (ShowsLast(segs, k) ==> out != [] && LastIsVisible(out[|out| - 1].text))
  {
    if ShowsFirst(segs, k) { BeginsVisibly(segs, k); }
    if ShowsLast(segs, k) { EndsVisibly(segs, k); }
  }
}
