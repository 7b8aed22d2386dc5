/** `is_missing_blank_line_between` and `lint_vertical_spacing` of `scripts/lint.py`: blank lines
    before declarations in Rust files. */
module VerticalSpacing {
  import opened BlankLines
  import opened Texts

  // ----- is_missing_blank_line_between -----

  /** `\w`, on ASCII text. */
  predicate IsWord(c: char) {
    IsUpper(c) || IsLower(c) || '0' <= c <= '9' || c == '_'
  }

  predicate EndsWith(s: string, suffix: string) {
    |suffix| <= |s| && s[|s| - |suffix|..] == suffix
  }

  predicate EndsWithAny(s: string, suffixes: seq<string>) {
    exists i :: 0 <= i < |suffixes| && EndsWith(s, suffixes[i])
  }

  predicate Contains(s: string, part: string) {
    part == "" || exists i, j :: 0 <= i < j <= |s| && s[i..j] == part
  }

  function After(s: string, prefix: string): string {
    if prefix <= s then s[|prefix|..] else s
  }

  function DropWord(s: string): (r: string)
    ensures |r| <= |s|
  {
    if s != "" && IsWord(s[0]) then DropWord(s[1..]) else s
  }

  /** Without a leading `pub ` or `pub(..) `. */
  function AfterVisibility(s: string): string {
    if "pub " <= s then s[4..]
    else if "pub(" <= s && ") " <= DropWord(s[4..]) then DropWord(s[4..])[2..]
    else s
  }

  predicate StartsWithKeyword(s: string, keyword: string) {
    keyword <= s && (|s| == |keyword| || !IsWord(s[|keyword|]))
  }

  /** `re_declaration` matches. */
  predicate IsDeclaration(line: string) {
    var s := After(AfterVisibility(DropSpaces(line)), "async ");
    || StartsWithKeyword(s, "impl") || StartsWithKeyword(s, "fn") || StartsWithKeyword(s, "struct")
    || StartsWithKeyword(s, "enum") || StartsWithKeyword(s, "union") || StartsWithKeyword(s, "trait")
    || StartsWithKeyword(s, "type")
  }

  /** `re_attribute` matches. */
  predicate IsAttribute(line: string) {
    var s := DropSpaces(line);
    "#[error" <= s || "#[derive" <= s || "#[inline" <= s
  }

  predicate OpensOrComments(line: string) {
    line == "" || "#" <= line || "//" <= line || EndsWithAny(line, ["{", "(", "\\", "r\"", "r#\"", "]"])
  }

  predicate IsMissingBlankLineBetween(previous: string, current: string) {
    if IsDeclaration(current) || IsAttribute(current) || "///" <= DropSpaces(current) then
      var line, prev := Strip(current), Strip(previous);
      && !Contains(prev, "template<")
      && !OpensOrComments(prev) && !("```" <= prev)
      && !("fn " <= line && EndsWith(line, ";"))
      && !("type " <= line && EndsWith(prev, ";"))
      && !(EndsWith(prev, ",") && "impl" <= line)
      && !EndsWith(prev, "*")
      && !EndsWith(prev, "r##\"")
    else false
  }

  // ----- lines between which it asks -----

  predicate AllSpaces(s: string) {
    forall i :: 0 <= i < |s| ==> IsSpace(s[i])
  }

  predicate IsKeyword(s: string) {
    s in ["impl", "fn", "struct", "enum", "union", "trait", "type"]
  }

  lemma {:induction false} DropsIndent(indent: string, rest: string)
    requires AllSpaces(indent) && rest != "" && !IsSpace(rest[0])
    ensures DropSpaces(indent + rest) == rest
    decreases |indent|
  {
    if indent == "" {
      assert indent + rest == rest;
    } else {
      DropsIndent(indent[1..], rest);
      assert (indent + rest)[1..] == indent[1..] + rest;
    }
  }

  lemma {:induction false} DropsTrailing(rest: string, blank: string)
    requires AllSpaces(blank) && rest != "" && !IsSpace(rest[|rest| - 1])
    ensures DropTrailingSpaces(rest + blank) == rest
    decreases |blank|
  {
    if blank == "" {
      assert rest + blank == rest;
    } else {
      DropsTrailing(rest, blank[..|blank| - 1]);
      assert (rest + blank)[..|rest + blank| - 1] == rest + blank[..|blank| - 1];
    }
  }

  lemma {:induction false} DropsWord(word: string, rest: string)
    requires (forall i :: 0 <= i < |word| ==> IsWord(word[i])) && (rest == "" || !IsWord(rest[0]))
    ensures DropWord(word + rest) == rest
    decreases |word|
  {
    if word == "" {
      assert word + rest == rest;
    } else {
      DropsWord(word[1..], rest);
      assert (word + rest)[1..] == word[1..] + rest;
    }
  }

  /** `keyword rest`, by itself, `pub`, or `pub(scope)`. */
  predicate Declares(line: string, visibility: string, scope: string, keyword: string, rest: string) {
    && IsKeyword(keyword) && (rest == "" || !IsWord(rest[0])) && (forall i :: 0 <= i < |scope| ==> IsWord(scope[i]))
    && (visibility == "" || visibility == "pub " || visibility == "pub(" + (scope + ") "))
    && line == visibility + (keyword + rest)
  }

  lemma KeywordStays(s: string, keyword: string, rest: string)
    requires IsKeyword(keyword) && s == keyword + rest
    ensures s != "" && s[0] != 'p' && s[0] != 'a' && !IsSpace(s[0]) && AfterVisibility(s) == s
  {
    assert s[0] == keyword[0] && keyword[0] in "ifsetu";
  }

  lemma ScopeIsDropped(scope: string, s: string)
    requires forall i :: 0 <= i < |scope| ==> IsWord(scope[i])
    ensures AfterVisibility("pub(" + (scope + (") " + s))) == s
  {
    var line, behind := "pub(" + (scope + (") " + s)), ") " + s;
    assert line[3] == '(' && line[..4] == "pub(" && line[4..] == scope + behind;
    DropsWord(scope, behind);
    assert behind[..2] == ") " && behind[2..] == s;
  }

  lemma PubIsDropped(s: string)
    ensures AfterVisibility("pub " + s) == s
  {
    var line := "pub " + s;
    assert line[..4] == "pub " && line[4..] == s;
  }

  lemma VisibilityIsDropped(line: string, visibility: string, scope: string, keyword: string, rest: string)
    requires Declares(line, visibility, scope, keyword, rest)
    ensures AfterVisibility(line) == keyword + rest
  {
    var s := keyword + rest;
    if visibility == "" {
      assert line == s;
      KeywordStays(s, keyword, rest);
    } else if visibility == "pub " {
      PubIsDropped(s);
    } else {
      assert line == "pub(" + (scope + (") " + s));
      ScopeIsDropped(scope, s);
    }
  }

  lemma NotAsync(s: string)
    requires s != "" && s[0] != 'a'
    ensures After(s, "async ") == s
  {
    assert "async "[0] == 'a';
  }

  lemma StartsWith(start: string, rest: string)
    requires start != ""
    ensures start <= start + rest && (start + rest)[0] == start[0]
  {
  }

  lemma KeywordDeclares(s: string, keyword: string, rest: string)
    requires IsKeyword(keyword) && (rest == "" || !IsWord(rest[0])) && s == keyword + rest
    ensures StartsWithKeyword(After(s, "async "), keyword)
  {
    KeywordStays(s, keyword, rest);
    NotAsync(s);
    StartsWith(keyword, rest);
    assert rest != "" ==> s[|keyword|] == rest[0];
  }

  lemma IsDeclarationLine(
    current: string, indent: string, line: string, visibility: string, scope: string, keyword: string, rest: string)
    requires AllSpaces(indent) && current == indent + line && Declares(line, visibility, scope, keyword, rest)
    ensures DropSpaces(current) == line && IsDeclaration(current)
  {
    assert line[0] == (if visibility == "" then keyword[0] else 'p') && !IsSpace(line[0]);
    DropsIndent(indent, line);
    VisibilityIsDropped(line, visibility, scope, keyword, rest);
    KeywordDeclares(keyword + rest, keyword, rest);
  }

  lemma BraceSeparatesNothing(prev: string)
    requires prev == "}"
    ensures !Contains(prev, "template<") && !OpensOrComments(prev) && !("```" <= prev)
    ensures !EndsWith(prev, ";") && !EndsWith(prev, ",") && !EndsWith(prev, "*") && !EndsWith(prev, "r##\"")
  {
    forall i, j | 0 <= i < j <= |prev| ensures prev[i..j] != "template<" { assert |prev[i..j]| <= 1; }
    var suffixes := ["{", "(", "\\", "r\"", "r#\"", "]"];
    forall i | 0 <= i < |suffixes| ensures !EndsWith(prev, suffixes[i]) {
      assert |prev| < |suffixes[i]| || prev[0] != suffixes[i][0];
    }
    assert !EndsWithAny(prev, suffixes);
    assert prev[0] != "#"[0] && prev[0] != "//"[0];
  }

  lemma PrefixStays(p: string, s: string, line: string)
    requires s <= line && p <= line && s != "" && s[|s| - 1] !in p
    ensures p <= s
  {
    assert forall i :: 0 <= i < |p| && i < |s| ==> p[i] == line[i] == s[i];
  }

  lemma PrefixOfPrefix(p: string, s: string, line: string)
    requires p <= s <= line
    ensures p <= line
  {
  }

  lemma EndsInSemicolon(s: string)
    requires EndsWith(s, ";")
    ensures s != "" && s[|s| - 1] == ';'
  {
    assert s[|s| - 1..][0] == ';';
  }

  lemma StripKeepsPrefix(p: string, line: string)
    requires ';' !in p
    ensures p <= DropTrailingSpaces(line) ==> p <= line
    ensures p <= line && EndsWith(DropTrailingSpaces(line), ";") ==> p <= DropTrailingSpaces(line)
  {
    var s := DropTrailingSpaces(line);
    if p <= s { PrefixOfPrefix(p, s, line); }
    if p <= line && EndsWith(s, ";") {
      EndsInSemicolon(s);
      PrefixStays(p, s, line);
    }
  }

  lemma StripsToBrace(line: string, before: string, behind: string)
    requires AllSpaces(before) && AllSpaces(behind) && line == before + ("}" + behind)
    ensures Strip(line) == "}"
  {
    DropsIndent(before, "}" + behind);
    DropsTrailing("}", behind);
  }

  /** Behind a brace alone only the declaration itself matters. */
  lemma RuleBehindBrace(previous: string, current: string)
    requires Strip(previous) == "}"
    requires IsDeclaration(current) || IsAttribute(current) || "///" <= DropSpaces(current)
    ensures IsMissingBlankLineBetween(previous, current) <==>
      !("fn " <= Strip(current) && EndsWith(Strip(current), ";"))
  {
    BraceSeparatesNothing("}");
  }

  lemma StripsIndent(current: string, indent: string, line: string)
    requires AllSpaces(indent) && current == indent + line && line != "" && !IsSpace(line[0])
    ensures DropSpaces(current) == line && Strip(current) == Strip(line) == DropTrailingSpaces(line)
  {
    DropsIndent(indent, line);
  }

  lemma DeclarationStart(line: string, visibility: string, scope: string, keyword: string, rest: string)
    requires Declares(line, visibility, scope, keyword, rest)
    ensures line != "" && !IsSpace(line[0]) && (visibility != "" ==> !("fn " <= line))
  {
    KeywordStays(keyword + rest, keyword, rest);
    if visibility != "" { assert visibility[0] == 'p' && line[0] == visibility[0] && "fn "[0] == 'f'; }
  }

  /** Between a line with nothing but a closing brace and a declaration the rule asks for a blank line,
      unless the declaration is that of a function without a body. */
  lemma AsksBehindBrace(
    previous: string, before: string, behind: string, current: string, indent: string, line: string,
    visibility: string, scope: string, keyword: string, rest: string)
    requires AllSpaces(before) && AllSpaces(behind) && previous == before + ("}" + behind)
    requires AllSpaces(indent) && current == indent + line && Declares(line, visibility, scope, keyword, rest)
    ensures IsMissingBlankLineBetween(previous, current) <==>
      !(visibility == "" && "fn " <= line && EndsWith(Strip(line), ";"))
  {
    IsDeclarationLine(current, indent, line, visibility, scope, keyword, rest);
    StripsToBrace(previous, before, behind);
    RuleBehindBrace(previous, current);
    DeclarationStart(line, visibility, scope, keyword, rest);
    StripsIndent(current, indent, line);
    StripKeepsPrefix("fn ", line);
  }

  predicate IsMarker(start: string) {
    start == "#[error" || start == "#[derive" || start == "#[inline" || start == "///"
  }

  lemma MarkerStart(line: string, start: string, rest: string)
    requires IsMarker(start) && line == start + rest
    ensures line != "" && !IsSpace(line[0]) && line[0] != 'f'
    ensures "#[error" <= line || "#[derive" <= line || "#[inline" <= line || "///" <= line
  {
    StartsWith(start, rest);
    assert start[0] == '#' || start[0] == '/';
  }

  lemma NotAFunction(line: string)
    requires line != "" && line[0] != 'f'
    ensures !("fn " <= line)
  {
    assert "fn "[0] == 'f';
  }

  /** So it does for an attribute or a doc comment. */
  lemma AsksForAttributes(
    previous: string, before: string, behind: string, current: string, indent: string, start: string, rest: string)
    requires AllSpaces(before) && AllSpaces(behind) && previous == before + ("}" + behind)
    requires AllSpaces(indent) && current == indent + (start + rest) && IsMarker(start)
    ensures IsMissingBlankLineBetween(previous, current)
  {
    var line := start + rest;
    MarkerStart(line, start, rest);
    StripsIndent(current, indent, line);
    StripsToBrace(previous, before, behind);
    RuleBehindBrace(previous, current);
    NotAFunction(line);
    StripKeepsPrefix("fn ", line);
  }

  /** Behind a line that opens a block or a list, goes on, or is a comment or an attribute it never asks. */
  lemma NeverAsksBehind(previous: string, current: string)
    requires
      var prev := Strip(previous);
      && prev != ""
      && (prev[|prev| - 1] in "{(]\\*" || prev[0] == '#' || "//" <= prev || "```" <= prev)
    ensures !IsMissingBlankLineBetween(previous, current)
  {
    var prev := Strip(previous);
    var suffixes := ["{", "(", "\\", "r\"", "r#\"", "]"];
    var last := prev[|prev| - 1];
    assert prev[|prev| - 1..] == [last];
    if last == '{' { assert EndsWith(prev, suffixes[0]); }
    if last == '(' { assert EndsWith(prev, suffixes[1]); }
    if last == '\\' { assert EndsWith(prev, suffixes[2]); }
    if last == ']' { assert EndsWith(prev, suffixes[5]); }
    if last == '*' { assert EndsWith(prev, "*"); }
    if last in "{(]\\" { assert EndsWithAny(prev, suffixes); }
    if prev[0] == '#' { assert "#" <= prev; }
  }

  // ----- lint_vertical_spacing -----

  const BLANK_LINE := "\n"

  method LintVerticalSpacing(linesIn: seq<string>) returns (errors: seq<nat>, linesOut: seq<string>)
    ensures errors == Errors(IsMissingBlankLineBetween, linesIn)
    ensures linesOut == Fixed(IsMissingBlankLineBetween, BLANK_LINE, linesIn)
  {
    errors, linesOut := [], [];
    var previous := "";
    for i := 0 to |linesIn|
      invariant errors == Errors(IsMissingBlankLineBetween, linesIn[..i])
      invariant linesOut == Fixed(IsMissingBlankLineBetween, BLANK_LINE, linesIn[..i])
      invariant i > 0 ==> previous == linesIn[i - 1]
    {
      PrefixGrows(IsMissingBlankLineBetween, BLANK_LINE, linesIn, i);
      var line := linesIn[i];
      ghost var before := linesOut;
      if i > 0 && IsMissingBlankLineBetween(previous, line) {
        errors := errors + [i + 1];
        linesOut := linesOut + [BLANK_LINE];
      }
      linesOut := linesOut + [line];
      assert linesOut ==
        before + ((if Missing(IsMissingBlankLineBetween, linesIn, i) then [BLANK_LINE] else []) + [line]);
      previous := line;
    }
    assert linesIn[..|linesIn|] == linesIn;
  }

  /** The rule never asks for a blank line next to a blank line. */
  lemma BlankSeparates()
    ensures Content(IsMissingBlankLineBetween, BLANK_LINE)
  {
    assert BLANK_LINE[1..] == "";
    assert DropSpaces(BLANK_LINE) == "" && Strip(BLANK_LINE) == "";
    forall line ensures !IsMissingBlankLineBetween(line, BLANK_LINE) && !IsMissingBlankLineBetween(BLANK_LINE, line) {
      assert AfterVisibility("") == "" && After("", "async ") == "";
    }
  }

  /** The fix is a projection that only inserts blank lines, one for each error. */
  lemma {:induction false} VerticalSpacingFix(lines: seq<string>)
    ensures
      var fixed := Fixed(IsMissingBlankLineBetween, BLANK_LINE, lines);
      && Errors(IsMissingBlankLineBetween, fixed) == []
      && Fixed(IsMissingBlankLineBetween, BLANK_LINE, fixed) == fixed
      && |fixed| == |lines| + |Errors(IsMissingBlankLineBetween, lines)|
  {
    BlankSeparates();
    FixIsAProjection(IsMissingBlankLineBetween, BLANK_LINE, lines);
    FixedLength(IsMissingBlankLineBetween, BLANK_LINE, lines);
  }
}
