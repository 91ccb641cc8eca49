/** The markdown helpers of the report pages: removing emphasis markers, a heading
    slug, and the rewrite that gives every second-level heading an anchor. */
module Marked {
  import opened Text
  import opened Slugs

  /** The characters the emphasis rewrite removes: `*`, `_` and `\`. Removing the
      pairs `**` and `__` first removes nothing the single characters would not. */
  predicate IsFormatting(c: char) { c == '*' || c == '_' || c == '\\' }

  /** `stripMarkdownFormatting` */
  function StripMarkdownFormatting(text: string): string
  {
    Trim(RemoveChars(text, IsFormatting))
  }

  /** No emphasis character is left and neither end is white space. */
  lemma StripMarkdownFormattingShape(text: string)
    ensures var r := StripMarkdownFormatting(text);
      && (forall i :: 0 <= i < |r| ==> !IsFormatting(r[i]))
      && (r != [] ==> !IsJsWhitespace(r[0]) && !IsJsWhitespace(r[|r| - 1]))
  {
    var t := RemoveChars(text, IsFormatting);
    StripByChars(t, IsJsWhitespace);
    StripByEnds(t, IsJsWhitespace);
  }

  /** Stripping twice is stripping once. */
  lemma StripMarkdownFormattingIdempotent(text: string)
    ensures StripMarkdownFormatting(StripMarkdownFormatting(text)) == StripMarkdownFormatting(text)
  {
    var r := StripMarkdownFormatting(text);
    StripMarkdownFormattingShape(text);
    RemoveCharsNone(r, IsFormatting);
    StripByUnchanged(r, IsJsWhitespace);
  }

  /** Characters `replace(/[^\w\s-]/g, '')` removes. */
  predicate NotSlugSource(c: char) { !(IsWordChar(c) || IsJsWhitespace(c) || c == '-') }

  /** The class `[\s_-]` whose runs become one hyphen. */
  predicate IsSeparator(c: char) { IsJsWhitespace(c) || c == '_' || c == '-' }

  /** `stripMarkdownFormatting(text).toLowerCase().trim()` */
  function Cleaned(text: string): string
  {
    Trim(Lower(StripMarkdownFormatting(text)))
  }

  /** The text before the separator rewrite: cleaned, then everything but word
      characters, white space and hyphens removed. */
  function SlugSource(text: string): string
  {
    RemoveChars(Cleaned(text), NotSlugSource)
  }

  /** The heading `slugify`. Unlike the backend's it may be empty. */
  function Slugify(text: string): string
  {
    StripHyphens(ReplaceRuns(SlugSource(text), IsSeparator, "-"))
  }

  /** Lower-casing comes before the trim, so no upper-case letter is left. */
  lemma CleanedNoUpper(text: string)
    ensures forall c :: c in Cleaned(text) ==> !IsAsciiUpper(c)
  {
    var l := Lower(StripMarkdownFormatting(text));
    LowerNoUpper(StripMarkdownFormatting(text));
    StripByChars(l, IsJsWhitespace);
  }

  /** The source text holds lower-case letters, digits, `_`, white space and
      hyphens only. */
  lemma SlugSourceChars(text: string)
    ensures forall c :: c in SlugSource(text) ==> IsLowerAlnum(c) || IsSeparator(c)
  {
    CleanedNoUpper(text);
  }

  /** Runs of separators become single hyphens: slug characters only, no hyphen
      doubled. */
  lemma SeparatorRunsShape(t: string)
    requires forall c :: c in t ==> IsLowerAlnum(c) || IsSeparator(c)
    ensures var h := ReplaceRuns(t, IsSeparator, "-");
      (forall i :: 0 <= i < |h| ==> SlugChar(h[i])) && NoDouble(h, '-')
  {
    var h := ReplaceRuns(t, IsSeparator, "-");
    ReplaceRunsChars(t, IsSeparator, "-");
    ReplaceRunsNoDouble(t, IsSeparator, '-');
    forall i | 0 <= i < |h|
      ensures SlugChar(h[i])
    {
      assert h[i] in h;
    }
  }

  /** The heading slug is a slug: lower-case letters, digits and single inner
      hyphens. */
  lemma SlugifyIsSlug(text: string)
    ensures IsSlug(Slugify(text))
  {
    SlugSourceChars(text);
    SeparatorRunsShape(SlugSource(text));
    StripHyphensSlug(ReplaceRuns(SlugSource(text), IsSeparator, "-"));
  }

  /** A slug has nothing for the emphasis rewrite to remove. */
  lemma SlugUnformatted(s: string)
    requires IsSlug(s)
    ensures StripMarkdownFormatting(s) == s
  {
    RemoveCharsNone(s, IsFormatting);
    SlugTrimmed(s);
  }

  /** A slug has nothing for the character filter to remove. */
  lemma SlugSourceOfSlug(s: string)
    requires IsSlug(s)
    ensures SlugSource(s) == s
  {
    SlugUnformatted(s);
    SlugLower(s);
    SlugTrimmed(s);
    RemoveCharsNone(s, NotSlugSource);
  }

  /** Neither the separator rewrite nor the hyphen strip changes a slug. */
  lemma SlugSeparatorsUnchanged(s: string)
    requires IsSlug(s)
    ensures StripHyphens(ReplaceRuns(s, IsSeparator, "-")) == s
  {
    ReplaceRunsFixpoint(s, IsSeparator, '-');
    SlugHyphensStripped(s);
  }

  /** A heading slug is its own slug. */
  lemma SlugifyIdempotent(text: string)
    ensures Slugify(Slugify(text)) == Slugify(text)
  {
    var s := Slugify(text);
    SlugifyIsSlug(text);
    SlugSourceOfSlug(s);
    SlugSeparatorsUnchanged(s);
  }

  // ------------------------------------------------------------ the anchors

  /** Where the first line of s ends: `.` in a regular expression stops at
      `\n`, `\r`, U+2028 and U+2029, and with the `m` flag `^` starts a line after
      each of them. */
  function LineLength(s: string): (n: nat)
    ensures n <= |s|
    ensures n < |s| ==> IsLineTerminator(s[n])
    ensures forall j :: 0 <= j < n ==> !IsLineTerminator(s[j])
    decreases |s|
  {
    if s == [] || IsLineTerminator(s[0]) then 0 else 1 + LineLength(s[1..])
  }

  predicate OneLine(s: string) { forall i :: 0 <= i < |s| ==> !IsLineTerminator(s[i]) }

  /** `/{#.*}$/.test(t)`: the text ends with `}` and a `{#` stands before it. */
  predicate HasAnchor(t: string)
  {
    |t| >= 3 && t[|t| - 1] == '}' && Contains(t[..|t| - 1], "{#")
  }

  /** The replacement callback on one line, for a slug function `slug`: a `## `
      heading without an anchor gets ` {#slug}` appended. */
  function RewriteLine(line: string, slug: string -> string): string
  {
    if StartsWith(line, "## ") then
      var content := line[3..];
      if HasAnchor(Trim(content)) then line
      else "## " + content + " {#" + slug(content) + "}"
    else line
  }

  /** The document rewrite for a slug function: every line rewritten, the line
      terminators kept. */
  function PreprocessWith(markdown: string, slug: string -> string): string
    decreases |markdown|
  {
    var n := LineLength(markdown);
    var line := RewriteLine(markdown[..n], slug);
    if n == |markdown| then line
    else line + [markdown[n]] + PreprocessWith(markdown[n + 1..], slug)
  }

  /** `preprocess`: the rewrite with the heading slug. */
  function Preprocess(markdown: string): string
  {
    PreprocessWith(markdown, Slugify)
  }

  /** The slug function never produces a line terminator. */
  ghost predicate SingleLine(slug: string -> string)
  {
    forall t :: OneLine(slug(t))
  }

  /** The heading slug is a single line. */
  lemma SlugifySingleLine()
    ensures SingleLine(Slugify)
  {
    forall t
      ensures OneLine(Slugify(t))
    {
      var s := Slugify(t);
      SlugifyIsSlug(t);
      SlugOneLine(s);
    }
  }

  /** The line length where a single line is followed by a terminator. */
  lemma LineLengthOf(line: string, rest: string)
    requires OneLine(line)
    ensures LineLength(line) == |line|
    ensures rest != [] && IsLineTerminator(rest[0]) ==> LineLength(line + rest) == |line|
  {
    if rest != [] && IsLineTerminator(rest[0]) {
      var s := line + rest;
      assert s[|line|] == rest[0];
      assert forall j :: 0 <= j < |line| ==> s[j] == line[j];
    }
  }

  /** Trimming `content {#slug}` keeps the anchor, so the test sees it. */
  lemma AnchorSuffixSeen(content: string, slug: string)
    ensures HasAnchor(Trim(content + " {#" + slug + "}"))
  {
    var c := content + " {#" + slug + "}";
    var b := |content| + 1;
    AnchorPositions(content, slug);
    TrimOnlyFront(c, b);
    var d := DropWhile(c, IsJsWhitespace);
    var k := |c| - |d|;
    assert d[b - k] == c[b] && d[b - k + 1] == c[b + 1];
    AnchorAt(d, b - k);
  }

  lemma AnchorPositions(content: string, slug: string)
    ensures var c := content + " {#" + slug + "}";
      c[|content| + 1] == '{' && c[|content| + 2] == '#' && c[|c| - 1] == '}'
  {
  }

  /** When `{` stands at b and the text ends with `}`, trimming removes only white
      space before b. */
  lemma TrimOnlyFront(c: string, b: nat)
    requires b + 1 < |c| && c[b] == '{' && c[|c| - 1] == '}'
    ensures Trim(c) == DropWhile(c, IsJsWhitespace)
    ensures |c| - |DropWhile(c, IsJsWhitespace)| <= b
  {
    assert !IsJsWhitespace(c[b]) && !IsJsWhitespace(c[|c| - 1]);
    StripByLastKept(c, IsJsWhitespace);
    DropWhileStops(c, IsJsWhitespace, b);
  }

  /** Dropping stops at the first character that does not satisfy p. */
  lemma DropWhileStops(s: string, p: char -> bool, b: nat)
    requires b < |s| && !p(s[b])
    ensures |s| - |DropWhile(s, p)| <= b
  {
  }

  /** A `{#` at j before a closing `}` is an anchor. */
  lemma AnchorAt(d: string, j: nat)
    requires j + 2 < |d| && d[j] == '{' && d[j + 1] == '#' && d[|d| - 1] == '}'
    ensures HasAnchor(d)
  {
    var e := d[..|d| - 1];
    assert e[j..j + 2] == "{#";
    assert OccursAt(e, "{#", j);
  }

  /** The appended heading is one line when its content and slug are. */
  lemma AnchoredOneLine(content: string, slug: string)
    requires OneLine(content) && OneLine(slug)
    ensures OneLine("## " + content + " {#" + slug + "}")
  {
    var r := "## " + content + " {#" + slug + "}";
    forall i | 0 <= i < |r|
      ensures !IsLineTerminator(r[i])
    {
      if 3 <= i < 3 + |content| {
        assert r[i] == content[i - 3];
      } else if 6 + |content| <= i < |r| - 1 {
        assert r[i] == slug[i - 6 - |content|];
      }
    }
  }

  /** A rewritten heading stays one line and carries an anchor the test sees. */
  lemma RewriteLineAnchored(line: string, slug: string -> string)
    requires SingleLine(slug)
    requires OneLine(line) && StartsWith(line, "## ")
    ensures OneLine(RewriteLine(line, slug))
    ensures var r := RewriteLine(line, slug);
      StartsWith(r, "## ") && HasAnchor(Trim(r[3..]))
  {
    var content := line[3..];
    if !HasAnchor(Trim(content)) {
      var sl := slug(content);
      RewriteHeading(line, slug);
      HeadingParts(content, sl);
      OneLineSuffix(line, 3);
      AnchoredOneLine(content, sl);
      AnchorSuffixSeen(content, sl);
    }
  }

  /** The rewrite of a heading without an anchor. */
  lemma RewriteHeading(line: string, slug: string -> string)
    requires StartsWith(line, "## ") && !HasAnchor(Trim(line[3..]))
    ensures RewriteLine(line, slug) == "## " + line[3..] + " {#" + slug(line[3..]) + "}"
  {
  }

  /** The rewritten heading starts with `## ` and its content is the old content
      and the anchor. */
  lemma HeadingParts(content: string, sl: string)
    ensures var r := "## " + content + " {#" + sl + "}";
      StartsWith(r, "## ") && r[3..] == content + " {#" + sl + "}"
  {
    var r := "## " + content + " {#" + sl + "}";
    assert r[..3] == "## ";
    assert r[3..] == content + " {#" + sl + "}";
  }

  lemma OneLineSuffix(line: string, n: nat)
    requires OneLine(line) && n <= |line|
    ensures OneLine(line[n..])
  {
    assert forall i :: 0 <= i < |line| - n ==> line[n..][i] == line[n + i];
  }

  /** Rewriting a line twice is rewriting it once. */
  lemma RewriteLineIdempotent(line: string, slug: string -> string)
    requires SingleLine(slug)
    requires OneLine(line)
    ensures RewriteLine(RewriteLine(line, slug), slug) == RewriteLine(line, slug)
    ensures OneLine(RewriteLine(line, slug))
  {
    if StartsWith(line, "## ") {
      RewriteLineAnchored(line, slug);
    }
  }

  /** Lines that are not second-level headings are left alone, and so are
      headings that already end in an anchor. */
  lemma RewriteLineUnchanged(line: string, slug: string -> string)
    requires !StartsWith(line, "## ") || HasAnchor(Trim(line[3..]))
    ensures RewriteLine(line, slug) == line
  {
  }

  /** A `### ` heading is not a `## ` heading. */
  lemma DeeperHeadingUnchanged(rest: string, slug: string -> string)
    ensures RewriteLine("### " + rest, slug) == "### " + rest
  {
    DeeperHeadingNotSecond(rest);
    RewriteLineUnchanged("### " + rest, slug);
  }

  lemma DeeperHeadingNotSecond(rest: string)
    ensures !StartsWith("### " + rest, "## ")
  {
    var line := "### " + rest;
    assert line[2] == '#';
  }

  /** A `## ` heading without an anchor ends in the anchor of its slug. */
  lemma HeadingGetsAnchor(content: string, slug: string -> string)
    requires !HasAnchor(Trim(content))
    ensures RewriteLine("## " + content, slug) == "## " + content + " {#" + slug(content) + "}"
  {
    var line := "## " + content;
    assert line[..3] == "## " && line[3..] == content;
  }

  /** One step of the document rewrite: the first line, its terminator and the
      rest. */
  lemma PreprocessStep(line: string, t: char, rest: string, slug: string -> string)
    requires OneLine(line) && IsLineTerminator(t)
    ensures PreprocessWith(line + [t] + rest, slug) == RewriteLine(line, slug) + [t] + PreprocessWith(rest, slug)
  {
    var s := line + [t] + rest;
    assert s == line + ([t] + rest);
    LineLengthOf(line, [t] + rest);
    assert s[..|line|] == line;
    assert s[|line|] == t;
    assert s[|line| + 1..] == rest;
  }

  /** The last line of the document, with no terminator after it. */
  lemma PreprocessLast(line: string, slug: string -> string)
    requires OneLine(line)
    ensures PreprocessWith(line, slug) == RewriteLine(line, slug)
  {
    LineLengthOf(line, []);
    assert line[..|line|] == line;
  }

  /** For a slug function that stays on one line, running the rewrite on its own
      output changes nothing. */
  lemma {:induction false} PreprocessWithIdempotent(markdown: string, slug: string -> string)
    requires SingleLine(slug)
    ensures PreprocessWith(PreprocessWith(markdown, slug), slug) == PreprocessWith(markdown, slug)
    decreases |markdown|
  {
    var n := LineLength(markdown);
    var line := markdown[..n];
    RewriteLineIdempotent(line, slug);
    if n == |markdown| {
      PreprocessLast(RewriteLine(line, slug), slug);
    } else {
      var rest := markdown[n + 1..];
      PreprocessWithIdempotent(rest, slug);
      PreprocessStep(RewriteLine(line, slug), markdown[n], PreprocessWith(rest, slug), slug);
    }
  }

  /** Running `preprocess` on its own output changes nothing. */
  lemma PreprocessIdempotent(markdown: string)
    ensures Preprocess(Preprocess(markdown)) == Preprocess(markdown)
  {
    SlugifySingleLine();
    PreprocessWithIdempotent(markdown, Slugify);
  }

  /** A line of the document starts at i: at the start or after a terminator. */
  predicate LineStart(s: string, i: int)
  {
    0 <= i <= |s| && (i == 0 || IsLineTerminator(s[i - 1]))
  }

  /** The rewrite leaves the first line of t alone. */
  predicate FirstKept(t: string)
  {
    var line := t[..LineLength(t)];
    !StartsWith(line, "## ") || HasAnchor(Trim(line[3..]))
  }

  /** keep holds of the text from every line start of s on. */
  ghost predicate EveryLine(s: string, keep: string -> bool)
  {
    forall i :: LineStart(s, i) ==> keep(s[i..])
  }

  /** A document whose every line is left alone by the rewrite is unchanged. */
  lemma PreprocessUnchanged(markdown: string)
    requires EveryLine(markdown, FirstKept)
    ensures Preprocess(markdown) == markdown
  {
    PreprocessWithUnchanged(markdown, Slugify);
  }

  lemma {:induction false} PreprocessWithUnchanged(markdown: string, slug: string -> string)
    requires EveryLine(markdown, FirstKept)
    ensures PreprocessWith(markdown, slug) == markdown
    decreases |markdown|
  {
    var n := LineLength(markdown);
    FirstLineKept(markdown, FirstKept);
    RewriteLineUnchanged(markdown[..n], slug);
    if n < |markdown| {
      var rest := markdown[n + 1..];
      RestKept(markdown, n, FirstKept);
      PreprocessWithUnchanged(rest, slug);
      CutAt(markdown, n);
    }
  }

  lemma FirstLineKept(markdown: string, keep: string -> bool)
    requires EveryLine(markdown, keep)
    ensures keep(markdown)
  {
    assert LineStart(markdown, 0);
    assert markdown[0..] == markdown;
  }

  /** What holds of every line of a document holds of every line after its first. */
  lemma RestKept(markdown: string, n: nat, keep: string -> bool)
    requires n < |markdown| && IsLineTerminator(markdown[n])
    requires EveryLine(markdown, keep)
    ensures EveryLine(markdown[n + 1..], keep)
  {
    var rest := markdown[n + 1..];
    forall i | LineStart(rest, i)
      ensures keep(rest[i..])
    {
      LineStartShift(markdown, n, i);
      SuffixOfSuffix(markdown, n + 1, i);
    }
  }

  lemma LineStartShift(s: string, n: nat, i: nat)
    requires n < |s| && IsLineTerminator(s[n])
    requires LineStart(s[n + 1..], i)
    ensures LineStart(s, n + 1 + i)
  {
    if i > 0 {
      assert s[n + 1..][i - 1] == s[n + i];
    }
  }

  lemma SuffixOfSuffix(s: string, n: nat, i: nat)
    requires n + i <= |s|
    ensures s[n..][i..] == s[n + i..]
  {
  }
}
