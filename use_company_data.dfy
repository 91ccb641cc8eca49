/** The older data hook: each record loaded from the JSON file gets the slug of
    its name as id. Unicode canonical decomposition is not modelled; it is the
    parameter `nfd`. */
module UseCompanyData {
  import opened Wrappers
  import opened Text

  /** The combining diacritical marks U+0300 to U+036F. */
  predicate IsCombiningMark(c: char) { '\U{0300}' <= c <= '\U{036F}' }

  /** Characters `replace(/[^\w-]+/g, '')` removes. */
  predicate NotWordOrHyphen(c: char) { !(IsWordChar(c) || c == '-') }

  /** The characters an id can hold: `[a-z0-9_-]`. */
  predicate IdChar(c: char) { IsLowerAlnum(c) || c == '_' || c == '-' }

  /** Accents removed, lower-cased and trimmed. */
  function Folded(text: string, nfd: string -> string): string
  {
    Trim(Lower(RemoveChars(nfd(text), IsCombiningMark)))
  }

  /** The hook's `slugify`: white-space runs to one hyphen, everything but word
      characters and hyphens removed, hyphen runs to one hyphen. Unlike the other
      slugs, hyphens at the ends stay. */
  function Slugify(text: string, nfd: string -> string): string
  {
    var spaced := ReplaceRuns(Folded(text, nfd), IsJsWhitespace, "-");
    ReplaceRuns(RemoveChars(spaced, NotWordOrHyphen), IsHyphen, "-")
  }

  /** No upper-case ASCII letter survives the folding. */
  lemma FoldedNoUpper(text: string, nfd: string -> string)
    ensures forall c :: c in Folded(text, nfd) ==> !IsAsciiUpper(c)
  {
    var l := Lower(RemoveChars(nfd(text), IsCombiningMark));
    LowerNoUpper(RemoveChars(nfd(text), IsCombiningMark));
    StripByChars(l, IsJsWhitespace);
  }

  /** Before the last rewrite only id characters are left. */
  lemma FilteredChars(text: string, nfd: string -> string)
    ensures var spaced := ReplaceRuns(Folded(text, nfd), IsJsWhitespace, "-");
      forall c :: c in RemoveChars(spaced, NotWordOrHyphen) ==> IdChar(c)
  {
    var f := Folded(text, nfd);
    FoldedNoUpper(text, nfd);
    ReplaceRunsChars(f, IsJsWhitespace, "-");
  }

  /** The id holds only `[a-z0-9_-]` and never two hyphens in a row. */
  lemma SlugifyShape(text: string, nfd: string -> string)
    ensures var s := Slugify(text, nfd);
      (forall i :: 0 <= i < |s| ==> IdChar(s[i])) && NoDouble(s, '-')
  {
    var spaced := ReplaceRuns(Folded(text, nfd), IsJsWhitespace, "-");
    var t := RemoveChars(spaced, NotWordOrHyphen);
    var s := Slugify(text, nfd);
    FilteredChars(text, nfd);
    ReplaceRunsChars(t, IsHyphen, "-");
    ReplaceRunsNoDouble(t, IsHyphen, '-');
    forall i | 0 <= i < |s|
      ensures IdChar(s[i])
    {
      assert s[i] in s;
    }
  }

  /** Only white space is trimmed, so a hyphen that begins the folded text begins
      the id too (`"- a"` becomes `"-a"`). */
  lemma LeadingHyphenKept(text: string, nfd: string -> string)
    requires Folded(text, nfd) != [] && Folded(text, nfd)[0] == '-'
    ensures Slugify(text, nfd) != [] && Slugify(text, nfd)[0] == '-'
  {
    var f := Folded(text, nfd);
    var spaced := ReplaceRuns(f, IsJsWhitespace, "-");
    ReplaceRunsFirst(f, IsJsWhitespace, "-");
    RemoveCharsFirst(spaced, NotWordOrHyphen);
    ReplaceRunsStartsWithRepl(RemoveChars(spaced, NotWordOrHyphen), IsHyphen, "-");
  }

  /** An accent decomposed into a combining mark is dropped: `é` becomes `e`. */
  lemma AccentDropped(nfd: string -> string)
    requires nfd("\U{E9}") == "e\U{0301}"
    ensures Slugify("\U{E9}", nfd) == "e"
  {
    FoldedAccent(nfd);
    PlainERewritten();
  }

  lemma FoldedAccent(nfd: string -> string)
    requires nfd("\U{E9}") == "e\U{0301}"
    ensures Folded("\U{E9}", nfd) == "e"
  {
    assert RemoveChars("e\U{0301}", IsCombiningMark) == "e";
    assert Lower("e") == "e";
    StripByUnchanged("e", IsJsWhitespace);
  }

  lemma PlainERewritten()
    ensures ReplaceRuns(RemoveChars(ReplaceRuns("e", IsJsWhitespace, "-"), NotWordOrHyphen), IsHyphen, "-") == "e"
  {
    assert ReplaceRuns("e", IsJsWhitespace, "-") == "e";
    assert RemoveChars("e", NotWordOrHyphen) == "e";
    assert ReplaceRuns("e", IsHyphen, "-") == "e";
  }

  /** A loaded record, its fields as text. */
  type Record = map<string, string>

  /** The record map for an id function: every record needs a name, and gets the
      id of its name over whatever id it had. */
  function SetIds(data: seq<Record>, slug: string -> string): (r: Option<seq<Record>>)
    decreases |data|
  {
    if data == [] then Some([])
    else if "name" !in data[0] then None
    else
      var rest := SetIds(data[1..], slug);
      if rest.None? then None
      else Some([data[0]["id" := slug(data[0]["name"])]] + rest.value)
  }

  /** `data.map((c) => ({ ...c, id: slugify(c.name) }))`. A record without a name
      makes `toString` throw, and the hook keeps no companies; that is None. */
  function WithIds(data: seq<Record>, nfd: string -> string): Option<seq<Record>>
  {
    SetIds(data, (t: string) => Slugify(t, nfd))
  }

  /** The ids are set when every record has a name; then each record keeps its
      other fields, and its id, given or not, becomes the id of its name. */
  lemma {:induction false} SetIdsRecords(data: seq<Record>, slug: string -> string)
    ensures SetIds(data, slug).Some? <==> forall i :: 0 <= i < |data| ==> "name" in data[i]
    ensures SetIds(data, slug).Some? ==>
      var out := SetIds(data, slug).value;
      && |out| == |data|
      && forall i :: 0 <= i < |data| ==>
        && out[i].Keys == data[i].Keys + {"id"}
        && out[i]["id"] == slug(data[i]["name"])
        && forall k :: k in data[i] && k != "id" ==> out[i][k] == data[i][k]
    decreases |data|
  {
    if data != [] {
      SetIdsRecords(data[1..], slug);
      assert forall i :: 1 <= i < |data| ==> data[1..][i - 1] == data[i];
    }
  }

  /** With the hook's slug: every id is the slug of the record's name. */
  lemma WithIdsRecords(data: seq<Record>, nfd: string -> string)
    ensures WithIds(data, nfd).Some? <==> forall i :: 0 <= i < |data| ==> "name" in data[i]
    ensures WithIds(data, nfd).Some? ==>
      var out := WithIds(data, nfd).value;
      && |out| == |data|
      && forall i :: 0 <= i < |data| ==>
        && out[i].Keys == data[i].Keys + {"id"}
        && out[i]["id"] == Slugify(data[i]["name"], nfd)
        && forall k :: k in data[i] && k != "id" ==> out[i][k] == data[i][k]
  {
    SetIdsRecords(data, (t: string) => Slugify(t, nfd));
  }
}
