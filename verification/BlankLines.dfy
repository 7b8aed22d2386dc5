/** Blank lines where a rule about neighbouring lines asks for them: what `lint_vertical_spacing` of
    `scripts/lint.py` does, for any such rule that is content with a blank line on either side. */
module BlankLines {

  type Rule<!T> = (T, T) -> bool

  /** A blank line belongs before line `i`. */
  predicate Missing<T>(asks: Rule<T>, lines: seq<T>, i: nat)
    requires i < |lines|
  {
    i > 0 && asks(lines[i - 1], lines[i])
  }

  /** The numbers of the lines reported, counted from 1. */
  function Errors<T>(asks: Rule<T>, lines: seq<T>): seq<nat> {
    if lines == [] then []
    else Errors(asks, lines[..|lines| - 1]) + if Missing(asks, lines, |lines| - 1) then [|lines|] else []
  }

  function Fixed<T>(asks: Rule<T>, blank: T, lines: seq<T>): seq<T> {
    if lines == [] then []
    else
      var more := (if Missing(asks, lines, |lines| - 1) then [blank] else []) + [lines[|lines| - 1]];
      Fixed(asks, blank, lines[..|lines| - 1]) + more
  }

  /** What line `i` adds. */
  lemma PrefixGrows<T>(asks: Rule<T>, blank: T, lines: seq<T>, i: nat)
    requires i < |lines|
    ensures Errors(asks, lines[..i + 1]) == Errors(asks, lines[..i]) + if Missing(asks, lines, i) then [i + 1] else []
    ensures
      var more := (if Missing(asks, lines, i) then [blank] else []) + [lines[i]];
      Fixed(asks, blank, lines[..i + 1]) == Fixed(asks, blank, lines[..i]) + more
  {
    assert lines[..i + 1][..i] == lines[..i];
  }

  ghost predicate Content<T(!new)>(asks: Rule<T>, blank: T) {
    forall x :: !asks(x, blank) && !asks(blank, x)
  }

  // ----- the fix is a projection -----

  ghost predicate Clean<T>(asks: Rule<T>, lines: seq<T>) {
    forall i :: 0 <= i < |lines| ==> !Missing(asks, lines, i)
  }

  lemma CleanButLast<T>(asks: Rule<T>, lines: seq<T>)
    requires lines != []
    ensures Clean(asks, lines) <==> Clean(asks, lines[..|lines| - 1]) && !Missing(asks, lines, |lines| - 1)
  {
    var front := lines[..|lines| - 1];
    forall i | 0 <= i < |front| ensures Missing(asks, front, i) == Missing(asks, lines, i) {}
  }

  lemma {:induction false} CleanHasNoErrors<T>(asks: Rule<T>, lines: seq<T>)
    ensures Clean(asks, lines) <==> Errors(asks, lines) == []
    decreases |lines|
  {
    if lines != [] {
      CleanHasNoErrors(asks, lines[..|lines| - 1]);
      CleanButLast(asks, lines);
    }
  }

  lemma {:induction false} CleanIsFixed<T>(asks: Rule<T>, blank: T, lines: seq<T>)
    requires Clean(asks, lines)
    ensures Fixed(asks, blank, lines) == lines
    decreases |lines|
  {
    if lines != [] {
      var front, last := lines[..|lines| - 1], lines[|lines| - 1];
      CleanButLast(asks, lines);
      CleanIsFixed(asks, blank, front);
      assert lines == front + ([] + [last]);
    }
  }

  lemma CleanOneMore<T>(asks: Rule<T>, lines: seq<T>, line: T)
    requires Clean(asks, lines) && (lines != [] ==> !asks(lines[|lines| - 1], line))
    ensures Clean(asks, lines + [line])
  {
    var more := lines + [line];
    forall i | 0 <= i < |more| ensures !Missing(asks, more, i) {
      if i < |lines| { assert Missing(asks, more, i) == Missing(asks, lines, i); }
    }
  }

  lemma {:induction false} FixedIsClean<T(!new)>(asks: Rule<T>, blank: T, lines: seq<T>)
    requires Content(asks, blank)
    ensures Clean(asks, Fixed(asks, blank, lines))
    ensures
      var out := Fixed(asks, blank, lines);
      lines != [] ==> out != [] && out[|out| - 1] == lines[|lines| - 1]
    decreases |lines|
  {
    if lines != [] {
      var front, last := lines[..|lines| - 1], lines[|lines| - 1];
      var out := Fixed(asks, blank, front);
      FixedIsClean(asks, blank, front);
      if Missing(asks, lines, |lines| - 1) {
        CleanOneMore(asks, out, blank);
        CleanOneMore(asks, out + [blank], last);
        assert out + [blank] + [last] == out + ([blank] + [last]);
      } else {
        CleanOneMore(asks, out, last);
        assert out + [last] == out + ([] + [last]);
      }
    }
  }

  /** Linting the fixed lines reports nothing, and fixing them again changes nothing. */
  lemma FixIsAProjection<T(!new)>(asks: Rule<T>, blank: T, lines: seq<T>)
    requires Content(asks, blank)
    ensures
      var out := Fixed(asks, blank, lines);
      Errors(asks, out) == [] && Fixed(asks, blank, out) == out
    ensures Errors(asks, lines) == [] ==> Fixed(asks, blank, lines) == lines
  {
    FixedIsClean(asks, blank, lines);
    CleanHasNoErrors(asks, Fixed(asks, blank, lines));
    CleanIsFixed(asks, blank, Fixed(asks, blank, lines));
    CleanHasNoErrors(asks, lines);
    if Errors(asks, lines) == [] { CleanIsFixed(asks, blank, lines); }
  }

  // ----- the fix only inserts blank lines -----

  /** Which of the fixed lines were inserted. */
  function Inserted<T>(asks: Rule<T>, lines: seq<T>): seq<bool> {
    if lines == [] then []
    else Inserted(asks, lines[..|lines| - 1]) + (if Missing(asks, lines, |lines| - 1) then [true] else []) + [false]
  }

  /** The lines of `out` that are marked as `which`. */
  function Select<T>(out: seq<T>, marks: seq<bool>, which: bool): seq<T>
    requires |marks| == |out|
  {
    if out == [] then []
    else
      var n := |out| - 1;
      Select(out[..n], marks[..n], which) + if marks[n] == which then [out[n]] else []
  }

  lemma SelectOneMore<T>(out: seq<T>, marks: seq<bool>, which: bool, line: T, mark: bool)
    requires |marks| == |out|
    ensures
      var more := if mark == which then [line] else [];
      Select(out + [line], marks + [mark], which) == Select(out, marks, which) + more
  {
    assert (out + [line])[..|out|] == out && (marks + [mark])[..|out|] == marks;
  }

  function Repeat<T>(x: T, n: nat): seq<T> {
    if n == 0 then [] else Repeat(x, n - 1) + [x]
  }

  lemma SelectLast<T>(out: seq<T>, marks: seq<bool>, blank: T, missing: bool, last: T)
    requires |marks| == |out|
    ensures
      var moreOut := out + ((if missing then [blank] else []) + [last]);
      var moreMarks := marks + (if missing then [true] else []) + [false];
      && Select(moreOut, moreMarks, false) == Select(out, marks, false) + [last]
      && Select(moreOut, moreMarks, true) == Select(out, marks, true) + if missing then [blank] else []
  {
    var blanks, flags := if missing then [blank] else [], if missing then [true] else [];
    assert out + (blanks + [last]) == (out + blanks) + [last];
    if missing {
      SelectOneMore(out, marks, false, blank, true);
      SelectOneMore(out, marks, true, blank, true);
    } else {
      assert out + blanks == out && marks + flags == marks;
    }
    SelectOneMore(out + blanks, marks + flags, false, last, false);
    SelectOneMore(out + blanks, marks + flags, true, last, false);
  }

  lemma LastLine<T>(asks: Rule<T>, blank: T, lines: seq<T>)
    requires lines != []
    ensures
      var n := |lines| - 1;
      var missing := Missing(asks, lines, n);
      && Fixed(asks, blank, lines) == Fixed(asks, blank, lines[..n]) + ((if missing then [blank] else []) + [lines[n]])
      && Inserted(asks, lines) == Inserted(asks, lines[..n]) + (if missing then [true] else []) + [false]
      && |Errors(asks, lines)| == |Errors(asks, lines[..n])| + if missing then 1 else 0
  {
  }

  /** `marks` tell the inserted lines of `out` from `lines`; there are `n` of them, all blank. */
  ghost predicate Marks<T>(out: seq<T>, marks: seq<bool>, blank: T, lines: seq<T>, n: nat) {
    && |marks| == |out|
    && Select(out, marks, false) == lines
    && Select(out, marks, true) == Repeat(blank, n)
  }

  lemma MarksOneMore<T>(
    out: seq<T>, marks: seq<bool>, blank: T, lines: seq<T>, n: nat, missing: bool, last: T, moreOut: seq<T>,
    moreMarks: seq<bool>)
    requires Marks(out, marks, blank, lines, n)
    requires moreOut == out + ((if missing then [blank] else []) + [last])
    requires moreMarks == marks + (if missing then [true] else []) + [false]
    ensures Marks(moreOut, moreMarks, blank, lines + [last], if missing then n + 1 else n)
  {
    SelectLast(out, marks, blank, missing, last);
    assert Repeat(blank, n) + [] == Repeat(blank, n);
  }

  /** Without the inserted lines the input is back; what was inserted are blank lines, one for each
      reported error. */
  lemma {:induction false} FixOnlyInsertsBlankLines<T>(asks: Rule<T>, blank: T, lines: seq<T>)
    ensures Marks(Fixed(asks, blank, lines), Inserted(asks, lines), blank, lines, |Errors(asks, lines)|)
    decreases |lines|
  {
    if lines != [] {
      var front, last := lines[..|lines| - 1], lines[|lines| - 1];
      FixOnlyInsertsBlankLines(asks, blank, front);
      LastLine(asks, blank, lines);
      assert front + [last] == lines;
      MarksOneMore(Fixed(asks, blank, front), Inserted(asks, front), blank, front, |Errors(asks, front)|,
        Missing(asks, lines, |lines| - 1), last, Fixed(asks, blank, lines), Inserted(asks, lines));
    }
  }

  /** An error names exactly the lines that lack a blank line before them. */
  lemma {:induction false} ErrorsNameTheLines<T>(asks: Rule<T>, lines: seq<T>)
    ensures forall n :: n in Errors(asks, lines) <==> 1 < n <= |lines| && asks(lines[n - 2], lines[n - 1])
    decreases |lines|
  {
    if lines != [] {
      ErrorsNameTheLines(asks, lines[..|lines| - 1]);
    }
  }

  lemma {:induction false} FixedLength<T>(asks: Rule<T>, blank: T, lines: seq<T>)
    ensures |Fixed(asks, blank, lines)| == |lines| + |Errors(asks, lines)|
    decreases |lines|
  {
    if lines != [] { FixedLength(asks, blank, lines[..|lines| - 1]); }
  }
}
