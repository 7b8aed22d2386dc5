/** `split_words` and `fix_enforced_upper_case` of `scripts/lint.py`, on ASCII text. */
module EnforcedCase {
  import opened Texts

  // ----- split_words -----

  predicate IsWordChar(c: char) {
    IsUpper(c) || IsLower(c) || '0' <= c <= '9' || c in "/_@`.!?+-()"
  }

  predicate IsWord(s: string) {
    s != "" && forall i :: 0 <= i < |s| ==> IsWordChar(s[i])
  }

  /** How much of `s` belongs to the word it starts with. */
  function WordLength(s: string): (n: nat)
    ensures n <= |s| && (forall i :: 0 <= i < n ==> IsWordChar(s[i])) && (n < |s| ==> !IsWordChar(s[n]))
  {
    if s == "" || !IsWordChar(s[0]) then 0 else 1 + WordLength(s[1..])
  }

  function Tokens(s: string): seq<string>
    decreases |s|
  {
    if s == "" then []
    else
      var n := if IsWordChar(s[0]) then WordLength(s) else 1;
      [s[..n]] + Tokens(s[n..])
  }

  function Concat(tokens: seq<string>): string {
    if tokens == [] then "" else tokens[0] + Concat(tokens[1..])
  }

  function Pending(word: string): seq<string> {
    if word == "" then [] else [word]
  }

  lemma {:induction false} WordEnds(word: string, rest: string)
    requires forall i :: 0 <= i < |word| ==> IsWordChar(word[i])
    requires rest != "" ==> !IsWordChar(rest[0])
    ensures Tokens(word + rest) == Pending(word) + Tokens(rest)
  {
    if word == "" {
      assert word + rest == rest;
    } else {
      var s := word + rest;
      assert forall k :: 0 <= k < |word| ==> s[k] == word[k];
      assert rest != "" ==> s[|word|] == rest[0];
      assert WordLength(s) == |word|;
      assert s[..|word|] == word && s[|word|..] == rest;
    }
  }

  lemma SeparatorIsToken(s: string)
    requires s != "" && !IsWordChar(s[0])
    ensures Tokens(s) == [[s[0]]] + Tokens(s[1..])
  {
    assert s[..1] == [s[0]];
  }

  /** The loop has read `s[..i]`; `word` is the word it is in the middle of. */
  ghost predicate Splitting(s: string, i: nat, result: seq<string>, word: string)
    requires i <= |s|
  {
    && (forall k :: 0 <= k < |word| ==> IsWordChar(word[k]))
    && result + Tokens(word + s[i..]) == Tokens(s)
  }

  lemma SplitInWord(s: string, i: nat, result: seq<string>, word: string)
    requires i < |s| && Splitting(s, i, result, word) && IsWordChar(s[i])
    ensures Splitting(s, i + 1, result, word + [s[i]])
  {
    assert word + s[i..] == (word + [s[i]]) + s[i + 1..];
  }

  lemma SplitAtSeparator(s: string, i: nat, result: seq<string>, word: string)
    requires i < |s| && Splitting(s, i, result, word) && !IsWordChar(s[i])
    ensures Splitting(s, i + 1, (result + Pending(word)) + [[s[i]]], "")
  {
    var rest := s[i..];
    WordEnds(word, rest);
    SeparatorIsToken(rest);
    assert rest[1..] == s[i + 1..] && "" + s[i + 1..] == s[i + 1..];
    Associates(result, Pending(word), [[s[i]]] + Tokens(s[i + 1..]));
    Associates(result + Pending(word), [[s[i]]], Tokens(s[i + 1..]));
  }

  lemma {:induction false} SplitEnds(s: string, result: seq<string>, word: string)
    requires Splitting(s, |s|, result, word)
    ensures result + Pending(word) == Tokens(s)
  {
    WordEnds(word, "");
    assert s[|s|..] == "";
    assert Pending(word) + Tokens("") == Pending(word);
  }

  method SplitWords(s: string) returns (result: seq<string>)
    ensures result == Tokens(s)
  {
    result := [];
    var word := "";
    assert "" + s[0..] == s && [] + Tokens(s) == Tokens(s);
    for i := 0 to |s|
      invariant Splitting(s, i, result, word)
    {
      if IsWordChar(s[i]) {
        SplitInWord(s, i, result, word);
        word := word + [s[i]];
      } else {
        SplitAtSeparator(s, i, result, word);
        assert word == "" ==> result + Pending(word) == result;
        if word != "" {
          result := result + [word];
          word := "";
        }
        result := result + [[s[i]]];
      }
    }
    SplitEnds(s, result, word);
    if word != "" {
      result := result + [word];
    }
  }

  /** Words and single separators, and no two words side by side. */
  ghost predicate WellFormed(tokens: seq<string>) {
    && (forall i :: 0 <= i < |tokens| ==> IsWord(tokens[i]) || (|tokens[i]| == 1 && !IsWordChar(tokens[i][0])))
    && (forall i, j :: 0 <= i < |tokens| && j == i + 1 < |tokens| ==> !IsWord(tokens[i]) || !IsWord(tokens[j]))
  }

  /** Joining the tokens gives the text back. */
  lemma {:induction false} ConcatInvertsTokens(s: string)
    ensures Concat(Tokens(s)) == s
    decreases |s|
  {
    if s != "" {
      var n := if IsWordChar(s[0]) then WordLength(s) else 1;
      ConcatInvertsTokens(s[n..]);
      assert s == s[..n] + s[n..];
    }
  }

  lemma WellFormedLonger(first: string, rest: seq<string>)
    requires WellFormed(rest) && (IsWord(first) || (|first| == 1 && !IsWordChar(first[0])))
    requires rest == [] || !IsWord(first) || !IsWord(rest[0])
    ensures WellFormed([first] + rest)
  {
  }

  lemma FirstToken(s: string)
    requires s != "" && !IsWordChar(s[0])
    ensures Tokens(s) != [] && !IsWord(Tokens(s)[0])
  {
    assert s[..1][0] == s[0];
  }

  lemma {:induction false} TokensAreWellFormed(s: string)
    ensures WellFormed(Tokens(s))
    decreases |s|
  {
    if s != "" {
      var n := if IsWordChar(s[0]) then WordLength(s) else 1;
      TokensAreWellFormed(s[n..]);
      if s[n..] != "" && IsWordChar(s[0]) { FirstToken(s[n..]); }
      WellFormedLonger(s[..n], Tokens(s[n..]));
    }
  }

  /** The only way to cut a text into words and separators. */
  lemma {:induction false} TokensInvertConcat(tokens: seq<string>)
    requires WellFormed(tokens)
    ensures Tokens(Concat(tokens)) == tokens
    decreases |tokens|
  {
    if tokens != [] {
      var first, rest := tokens[0], tokens[1..];
      TokensInvertConcat(rest);
      assert tokens == [first] + rest;
      if IsWord(first) {
        if rest != [] { assert Concat(rest)[0] == rest[0][0]; }
        WordEnds(first, Concat(rest));
      } else {
        SeparatorIsToken(Concat(tokens));
        assert Concat(tokens)[1..] == Concat(rest);
      }
    }
  }

  // ----- fix_enforced_upper_case -----

  /** The place of the first entry of `forced` that is `word` up to letter case. */
  function IndexIn(forced: seq<string>, word: string): (i: nat)
    ensures i <= |forced| && (i < |forced| ==> Lower(forced[i]) == Lower(word))
    ensures forall k :: 0 <= k < i ==> Lower(forced[k]) != Lower(word)
  {
    if forced == [] || Lower(forced[0]) == Lower(word) then 0 else 1 + IndexIn(forced[1..], word)
  }

  function Spelled(forced: seq<string>, word: string): string {
    if IndexIn(forced, word) < |forced| then forced[IndexIn(forced, word)] else word
  }

  predicate Opens(word: string) {
    word != "" && word[0] == '`'
  }

  predicate Closes(word: string) {
    word != "" && word[|word| - 1] == '`'
  }

  /** Whether inline code goes on after `word`. */
  function CodeAfter(inCode: bool, word: string): bool {
    !Closes(word) && (inCode || Opens(word))
  }

  /** `word` is not to be touched. */
  predicate Exempt(inCode: bool, word: string) {
    Strip(word) == "" || CodeAfter(inCode, word) || Opens(word)
  }

  function FixWord(forced: seq<string>, inCode: bool, word: string): string {
    if Exempt(inCode, word) then word else Spelled(forced, word)
  }

  function FixWords(forced: seq<string>, inCode: bool, words: seq<string>): (r: seq<string>)
    ensures |r| == |words|
    decreases |words|
  {
    if words == [] then []
    else [FixWord(forced, inCode, words[0])] + FixWords(forced, CodeAfter(inCode, words[0]), words[1..])
  }

  function Fixed(forced: seq<string>, s: string): string {
    Concat(FixWords(forced, false, Tokens(s)))
  }

  /** The result differs from the text in letter case only. */
  ghost predicate SameButCase(a: string, b: string) {
    Lower(a) == Lower(b)
  }

  lemma SameButCaseKeepsShape(a: string, b: string)
    requires SameButCase(a, b)
    ensures |a| == |b|
    ensures forall i :: 0 <= i < |a| ==>
      IsWordChar(a[i]) == IsWordChar(b[i]) && IsSpace(a[i]) == IsSpace(b[i]) && (a[i] == '`' <==> b[i] == '`')
  {
    assert |a| == |Lower(a)| == |b|;
    forall i | 0 <= i < |a|
      ensures IsWordChar(a[i]) == IsWordChar(b[i]) && IsSpace(a[i]) == IsSpace(b[i]) && (a[i] == '`' <==> b[i] == '`')
    {
      assert ToLower(a[i]) == Lower(a)[i] == Lower(b)[i] == ToLower(b[i]);
      CaseIsForLetters(a[i], b[i]);
    }
  }

  lemma CaseIsForLetters(c: char, d: char)
    requires ToLower(c) == ToLower(d)
    ensures c == d || ((IsUpper(c) || IsLower(c)) && (IsUpper(d) || IsLower(d)))
  {
  }

  lemma {:induction false} StripsToNothing(s: string)
    ensures Strip(s) == "" <==> forall i :: 0 <= i < |s| ==> IsSpace(s[i])
    decreases |s|
  {
    if s != "" && IsSpace(s[0]) {
      StripsToNothing(s[1..]);
      assert DropSpaces(s) == DropSpaces(s[1..]);
      assert forall i :: 0 < i < |s| ==> s[i] == s[1..][i - 1];
    } else if s != "" {
      KeepsFirst(s);
    }
  }

  lemma {:induction false} KeepsFirst(s: string)
    requires s != "" && !IsSpace(s[0])
    ensures DropTrailingSpaces(s) != ""
    decreases |s|
  {
    if IsSpace(s[|s| - 1]) { KeepsFirst(s[..|s| - 1]); }
  }

  lemma BlankIgnoresCase(a: string, b: string)
    requires SameButCase(a, b)
    ensures (Strip(a) == "") == (Strip(b) == "")
  {
    SameButCaseKeepsShape(a, b);
    StripsToNothing(a);
    StripsToNothing(b);
  }

  lemma CaseDoesNotExempt(inCode: bool, a: string, b: string)
    requires SameButCase(a, b)
    ensures Exempt(inCode, a) == Exempt(inCode, b) && CodeAfter(inCode, a) == CodeAfter(inCode, b)
  {
    BlankIgnoresCase(a, b);
    SameButCaseKeepsShape(a, b);
    assert Opens(a) == Opens(b) && Closes(a) == Closes(b);
  }

  lemma {:induction false} IndexIgnoresCase(forced: seq<string>, a: string, b: string)
    requires SameButCase(a, b)
    ensures IndexIn(forced, a) == IndexIn(forced, b)
    decreases |forced|
  {
    if forced != [] { IndexIgnoresCase(forced[1..], a, b); }
  }

  lemma FixWordTwice(forced: seq<string>, inCode: bool, word: string)
    ensures SameButCase(FixWord(forced, inCode, word), word)
    ensures FixWord(forced, inCode, FixWord(forced, inCode, word)) == FixWord(forced, inCode, word)
  {
    var fixed := FixWord(forced, inCode, word);
    CaseDoesNotExempt(inCode, fixed, word);
    IndexIgnoresCase(forced, fixed, word);
  }

  lemma {:induction false} FixWordsTwice(forced: seq<string>, inCode: bool, words: seq<string>)
    ensures FixWords(forced, inCode, FixWords(forced, inCode, words)) == FixWords(forced, inCode, words)
    decreases |words|
  {
    if words != [] {
      FixWordTwice(forced, inCode, words[0]);
      CaseDoesNotExempt(inCode, FixWord(forced, inCode, words[0]), words[0]);
      FixWordsTwice(forced, CodeAfter(inCode, words[0]), words[1..]);
      assert FixWords(forced, inCode, words)[1..] == FixWords(forced, CodeAfter(inCode, words[0]), words[1..]);
    }
  }

  /** Whether inline code is open before token `i`, when it is `inCode` at the start. */
  function CodeFrom(inCode: bool, words: seq<string>, i: nat): bool
    requires i <= |words|
    decreases i
  {
    if i == 0 then inCode else CodeFrom(CodeAfter(inCode, words[0]), words[1..], i - 1)
  }

  lemma {:induction false} FixWordsAt(forced: seq<string>, inCode: bool, words: seq<string>, i: nat)
    requires i < |words|
    ensures FixWords(forced, inCode, words)[i] == FixWord(forced, CodeFrom(inCode, words, i), words[i])
    decreases |words|
  {
    if i > 0 {
      var rest := FixWords(forced, CodeAfter(inCode, words[0]), words[1..]);
      FixWordsAt(forced, CodeAfter(inCode, words[0]), words[1..], i - 1);
      assert ([FixWord(forced, inCode, words[0])] + rest)[i] == rest[i - 1];
    }
  }

  ghost predicate AllSameButCase(a: seq<string>, b: seq<string>) {
    |a| == |b| && forall i :: 0 <= i < |a| ==> SameButCase(a[i], b[i])
  }

  lemma FixWordsSameButCase(forced: seq<string>, words: seq<string>)
    ensures AllSameButCase(FixWords(forced, false, words), words)
  {
    forall i | 0 <= i < |words| ensures SameButCase(FixWords(forced, false, words)[i], words[i]) {
      FixWordsAt(forced, false, words, i);
      FixWordTwice(forced, CodeFrom(false, words, i), words[i]);
    }
  }

  lemma WellFormedIgnoresCase(a: seq<string>, b: seq<string>)
    requires AllSameButCase(a, b) && WellFormed(b)
    ensures WellFormed(a)
  {
    forall i | 0 <= i < |a| ensures IsWord(a[i]) == IsWord(b[i]) && |a[i]| == |b[i]| {
      SameButCaseKeepsShape(a[i], b[i]);
    }
  }

  lemma LowerConcat(a: string, b: string)
    ensures Lower(a + b) == Lower(a) + Lower(b)
  {
  }

  lemma {:induction false} ConcatIgnoresCase(a: seq<string>, b: seq<string>)
    requires AllSameButCase(a, b)
    ensures SameButCase(Concat(a), Concat(b))
    decreases |a|
  {
    if a != [] {
      ConcatIgnoresCase(a[1..], b[1..]);
      LowerConcat(a[0], Concat(a[1..]));
      LowerConcat(b[0], Concat(b[1..]));
    }
  }

  /** The fixed text is cut in the same places as the text, into the fixed tokens. */
  lemma {:induction false} FixKeepsBoundaries(forced: seq<string>, s: string)
    ensures Tokens(Fixed(forced, s)) == FixWords(forced, false, Tokens(s))
    ensures AllSameButCase(Tokens(Fixed(forced, s)), Tokens(s))
  {
    TokensAreWellFormed(s);
    FixWordsSameButCase(forced, Tokens(s));
    WellFormedIgnoresCase(FixWords(forced, false, Tokens(s)), Tokens(s));
    TokensInvertConcat(FixWords(forced, false, Tokens(s)));
  }

  /** The fix changes letter case only, and fixing twice is fixing once. */
  lemma FixIsAProjection(forced: seq<string>, s: string)
    ensures SameButCase(Fixed(forced, s), s)
    ensures Fixed(forced, Fixed(forced, s)) == Fixed(forced, s)
  {
    FixKeepsBoundaries(forced, s);
    ConcatIgnoresCase(FixWords(forced, false, Tokens(s)), Tokens(s));
    ConcatInvertsTokens(s);
    FixWordsTwice(forced, false, Tokens(s));
  }

  /** An earlier token, or this one, opens inline code that no token has closed since. */
  ghost predicate InInlineCode(words: seq<string>, i: nat)
    requires i < |words|
  {
    exists o :: 0 <= o <= i && words[o] != "" && words[o][0] == '`' && NothingCloses(words, o, i)
  }

  /** No token from `o` to `i` ends in a backtick. */
  ghost predicate NothingCloses(words: seq<string>, o: nat, i: nat)
    requires o <= i < |words|
  {
    forall k :: o <= k <= i ==> words[k] == "" || words[k][|words[k]| - 1] != '`'
  }

  lemma NothingClosesLater(words: seq<string>, o: nat, i: nat)
    requires 0 < o <= i < |words|
    ensures NothingCloses(words, o, i) <==> NothingCloses(words[1..], o - 1, i - 1)
  {
    if NothingCloses(words[1..], o - 1, i - 1) {
      forall k | o <= k <= i ensures words[k] == "" || words[k][|words[k]| - 1] != '`' {
        assert words[k] == words[1..][k - 1];
      }
    }
  }

  lemma InlineCodeLater(words: seq<string>, i: nat)
    requires 0 < i < |words|
    ensures InInlineCode(words, i) <==>
      InInlineCode(words[1..], i - 1) || (words[0] != "" && words[0][0] == '`' && NothingCloses(words, 0, i))
  {
    if InInlineCode(words, i) {
      var o :| 0 <= o <= i && words[o] != "" && words[o][0] == '`' && NothingCloses(words, o, i);
      if o > 0 {
        NothingClosesLater(words, o, i);
        assert words[1..][o - 1] == words[o];
      }
    }
    if InInlineCode(words[1..], i - 1) {
      var o :| 0 <= o <= i - 1 && words[1..][o] != "" && words[1..][o][0] == '`' && NothingCloses(words[1..], o, i - 1);
      NothingClosesLater(words, o + 1, i);
      assert words[o + 1] == words[1..][o];
    }
  }

  lemma NothingClosesFirst(words: seq<string>, i: nat)
    requires 0 < i < |words|
    ensures NothingCloses(words, 0, i) <==> !Closes(words[0]) && NothingCloses(words[1..], 0, i - 1)
  {
    NothingClosesLater(words, 1, i);
  }

  lemma {:induction false} CodeIsInline(inCode: bool, words: seq<string>, i: nat)
    requires i < |words|
    ensures CodeAfter(CodeFrom(inCode, words, i), words[i]) <==>
      (inCode && NothingCloses(words, 0, i)) || InInlineCode(words, i)
    decreases i
  {
    if i > 0 {
      CodeIsInline(CodeAfter(inCode, words[0]), words[1..], i - 1);
      InlineCodeLater(words, i);
      NothingClosesFirst(words, i);
    } else {
      assert NothingCloses(words, 0, 0) <==> !Closes(words[0]);
    }
  }

  /** `forced[k]` is the first entry that is `word` up to letter case. */
  ghost predicate FirstSpelling(forced: seq<string>, word: string, k: nat) {
    k < |forced| && SameButCase(forced[k], word) && forall j :: 0 <= j < k ==> !SameButCase(forced[j], word)
  }

  lemma FirstSpellingIs(forced: seq<string>, word: string)
    ensures
      if IndexIn(forced, word) < |forced| then FirstSpelling(forced, word, IndexIn(forced, word))
      else forall k :: 0 <= k < |forced| ==> !SameButCase(forced[k], word)
  {
  }

  predicate IsBlank(word: string) {
    forall k :: 0 <= k < |word| ==> IsSpace(word[k])
  }

  /** A word on its own, `inline` if inline code goes on behind it. */
  ghost predicate IsFixed(forced: seq<string>, inline: bool, word: string, fixed: string) {
    if IsBlank(word) || word[0] == '`' || inline then fixed == word
    else if exists k :: 0 <= k < |forced| && SameButCase(forced[k], word) then
      exists k: nat :: FirstSpelling(forced, word, k) && fixed == forced[k]
    else fixed == word
  }

  lemma FixWordIs(forced: seq<string>, inCode: bool, word: string)
    ensures IsFixed(forced, CodeAfter(inCode, word), word, FixWord(forced, inCode, word))
  {
    StripsToNothing(word);
    FirstSpellingIs(forced, word);
  }

  /** Token by token: blanks, tokens that open inline code and those inside it stay; other listed words
      get the first listed spelling, and everything else stays. */
  lemma FixedToken(forced: seq<string>, s: string, i: nat)
    requires i < |Tokens(s)|
    ensures |Tokens(Fixed(forced, s))| == |Tokens(s)|
    ensures IsFixed(forced, InInlineCode(Tokens(s), i), Tokens(s)[i], Tokens(Fixed(forced, s))[i])
  {
    FixKeepsBoundaries(forced, s);
    FixWordsAt(forced, false, Tokens(s), i);
    CodeIsInline(false, Tokens(s), i);
    FixWordIs(forced, CodeFrom(false, Tokens(s), i), Tokens(s)[i]);
  }

  /** The loop has fixed `words[..i]` and is in the middle of inline code if `inCode`. */
  ghost predicate Fixing(forced: seq<string>, words: seq<string>, i: nat, inCode: bool, newWords: seq<string>)
    requires i <= |words|
  {
    newWords + FixWords(forced, inCode, words[i..]) == FixWords(forced, false, words)
  }

  lemma FixNext(forced: seq<string>, words: seq<string>, i: nat, inCode: bool, newWords: seq<string>)
    requires i < |words| && Fixing(forced, words, i, inCode, newWords)
    ensures Fixing(forced, words, i + 1, CodeAfter(inCode, words[i]), newWords + [FixWord(forced, inCode, words[i])])
  {
    var rest := words[i..];
    assert rest[0] == words[i] && rest[1..] == words[i + 1..];
    Associates(newWords, [FixWord(forced, inCode, words[i])],
      FixWords(forced, CodeAfter(inCode, words[i]), words[i + 1..]));
  }

  method FixUpperCase(forced: seq<string>, s: string) returns (fixed: string)
    ensures fixed == Fixed(forced, s)
  {
    var words := SplitWords(s);
    var newWords: seq<string> := [];
    var inCode := false;
    assert words[0..] == words && [] + FixWords(forced, false, words) == FixWords(forced, false, words);
    for i := 0 to |words|
      invariant Fixing(forced, words, i, inCode, newWords)
    {
      FixNext(forced, words, i, inCode, newWords);
      var word := words[i];
      if Opens(word) {
        inCode := true;
      }
      if Closes(word) {
        inCode := false;
      }
      if Strip(word) != "" && !inCode && !Opens(word) {
        var index := IndexIn(forced, word);
        if index < |forced| {
          word := forced[index];
        }
      }
      newWords := newWords + [word];
    }
    assert words[|words|..] == [] && newWords + [] == newWords;
    fixed := Concat(newWords);
  }

  /** The spellings that `fix_enforced_upper_case` enforces. */
  const FORCE_CAPITALIZED: seq<string> := [
    "2D", "3D", "Apache", "API", "APIs", "April", "Bevy", "C", "C++", "C++17,", "CI", "Colab", "Google", "Gradio",
    "gRPC", "GUI", "GUIs", "Intel", "July", "Jupyter", "LeRobot", "Linux", "Mac", "macOS", "Macs", "ML", "Numpy",
    "nuScenes", "Pandas", "PDF", "Pixi", "Polars", "Python", "Q1", "Q2", "Q3", "Q4", "Dalaran", "Rust", "SAM", "SDK",
    "SDKs", "UI", "UIs", "UX", "Wasm", "Windows"
  ]

  method FixEnforcedUpperCase(s: string) returns (fixed: string)
    ensures fixed == Fixed(FORCE_CAPITALIZED, s)
  {
    fixed := FixUpperCase(FORCE_CAPITALIZED, s);
  }
}
