/** Hyphenated slugs: lower-case ASCII letters and digits in words joined by
    single hyphens. Three of the slug functions build them the same way: every run
    of other characters becomes one `-`, then the hyphens at both ends go. */
module Slugs {
  import opened Text

  predicate NotLowerAlnum(c: char) { !IsLowerAlnum(c) }

  predicate SlugChar(c: char) { IsLowerAlnum(c) || c == '-' }

  /** Only slug characters, no doubled hyphen, no hyphen at either end. */
  ghost predicate IsSlug(s: string)
  {
    && (forall i :: 0 <= i < |s| ==> SlugChar(s[i]))
    && NoDouble(s, '-')
    && (s != [] ==> s[0] != '-' && s[|s| - 1] != '-')
  }

  /** `re.sub(r"[^a-z0-9]+", "-", s)` */
  function HyphenRuns(s: string): string
  {
    ReplaceRuns(s, NotLowerAlnum, "-")
  }

  /** After the rewrite only slug characters are left and no hyphen is doubled. */
  lemma HyphenRunsShape(s: string)
    ensures var r := HyphenRuns(s);
      (forall i :: 0 <= i < |r| ==> SlugChar(r[i])) && NoDouble(r, '-')
  {
    var r := HyphenRuns(s);
    ReplaceRunsChars(s, NotLowerAlnum, "-");
    ReplaceRunsNoDouble(s, NotLowerAlnum, '-');
    forall i | 0 <= i < |r|
      ensures SlugChar(r[i])
    {
      assert r[i] in r;
    }
  }

  /** What stripping the end hyphens keeps is a piece of s. */
  lemma StripHyphensPiece(s: string) returns (k: nat)
    ensures var r := StripHyphens(s);
      k + |r| <= |s| && forall i :: 0 <= i < |r| ==> r[i] == s[k + i]
  {
    StripByMiddle(s, IsHyphen);
    k := |s| - |DropWhile(s, IsHyphen)|;
  }

  /** Stripping the end hyphens of a string of slug characters without a doubled
      hyphen gives a slug. */
  lemma StripHyphensSlug(s: string)
    requires forall i :: 0 <= i < |s| ==> SlugChar(s[i])
    requires NoDouble(s, '-')
    ensures IsSlug(StripHyphens(s))
  {
    var r := StripHyphens(s);
    StripByEnds(s, IsHyphen);
    var k := StripHyphensPiece(s);
    forall i, j | 0 <= i < j < |r| && j == i + 1
      ensures !(r[i] == '-' && r[j] == '-')
    {
      assert r[i] == s[k + i] && r[j] == s[k + j];
    }
  }

  /** A slug has no white space for Python's `strip()` to remove. */
  lemma SlugStripped(s: string)
    requires IsSlug(s)
    ensures PyStrip(s) == s
  {
    StripByUnchanged(s, IsPyWhitespace);
  }

  /** A slug has no white space for JavaScript's `trim()` to remove. */
  lemma SlugTrimmed(s: string)
    requires IsSlug(s)
    ensures Trim(s) == s
  {
    StripByUnchanged(s, IsJsWhitespace);
  }

  /** A slug has no line terminator. */
  lemma SlugOneLine(s: string)
    requires IsSlug(s)
    ensures forall i :: 0 <= i < |s| ==> !IsLineTerminator(s[i])
  {
  }

  /** A slug has no hyphen to strip at either end. */
  lemma SlugHyphensStripped(s: string)
    requires IsSlug(s)
    ensures StripHyphens(s) == s
  {
    StripByUnchanged(s, IsHyphen);
  }

  /** A slug is already lower case. */
  lemma SlugLower(s: string)
    requires IsSlug(s)
    ensures Lower(s) == s
  {
    assert forall i :: 0 <= i < |s| ==> Lower(s)[i] == s[i];
  }

  /** Neither run rewrite changes a slug. */
  lemma SlugRunsUnchanged(s: string)
    requires IsSlug(s)
    ensures HyphenRuns(s) == s
    ensures ReplaceRuns(s, IsHyphen, "-") == s
  {
    ReplaceRunsFixpoint(s, NotLowerAlnum, '-');
    ReplaceRunsFixpoint(s, IsHyphen, '-');
  }
}
