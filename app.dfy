/** The application shell: the older breadcrumb trail of the header, the
    language selector value and the data status badge. */
module App {
  import opened Wrappers
  import opened Text
  import opened Breadcrumbs

  /** `params.id` is truthy: given and not empty. */
  predicate HasId(id: Option<string>) { id.Some? && id.value != "" }

  /** The older label rule: with an id in the route, the `companies` segment shows
      the company's name, or the raw id when no company has it, and `report`
      shows "Full Report"; every other segment is capitalised. */
  function AppLabel(value: string, id: Option<string>, companies: seq<Listing>): string
  {
    if value == "companies" && HasId(id) then
      var found := FindName(companies, id.value);
      if found.Some? then found.value else id.value
    else if value == "report" && HasId(id) then "Full Report"
    else Capitalize(value)
  }

  /** The header's `crumbs`. */
  function AppCrumbs(pathname: string, id: Option<string>, companies: seq<Listing>): (crumbs: seq<Crumb>)
    ensures |crumbs| == |Segments(pathname)|
  {
    var segments := Segments(pathname);
    seq(|segments|, i requires 0 <= i < |segments| =>
      Crumb(PathTo(segments, i), AppLabel(segments[i], id, companies)))
  }

  /** The older trail links to the same places as the layout's, crumb by crumb. */
  lemma SameLinks(pathname: string, id: Option<string>, companies: seq<Listing>,
                  companiesLabel: string, reportLabel: string)
    ensures var old_ := AppCrumbs(pathname, id, companies);
      var new_ := Crumbs(pathname, id, companies, companiesLabel, reportLabel);
      |old_| == |new_| && forall i :: 0 <= i < |old_| ==> old_[i].to == new_[i].to
  {
  }

  /** Without an id in the route every crumb is its capitalised segment, and the
      id segment itself is never relabelled. */
  lemma AppLabelCapitalized(value: string, id: Option<string>, companies: seq<Listing>)
    requires !HasId(id) || (value != "companies" && value != "report")
    ensures AppLabel(value, id, companies) == Capitalize(value)
  {
  }

  /** The `companies` segment names the first company with the route's id, and
      shows the id itself when there is none. */
  lemma CompaniesCrumbNamesCompany(id: string, companies: seq<Listing>)
    requires id != ""
    ensures var caption := AppLabel("companies", Some(id), companies);
      (exists i :: 0 <= i < |companies| && companies[i].id == id && companies[i].name == caption
        && forall j :: 0 <= j < i ==> companies[j].id != id)
      || (caption == id && forall i :: 0 <= i < |companies| ==> companies[i].id != id)
  {
  }

  /** `i18n.language.split('-')[0]` */
  function LanguageCode(language: string): string
  {
    Split(language, '-')[0]
  }

  /** The code is the part before the first hyphen: a prefix without a hyphen,
      the whole tag when it has none. */
  lemma LanguageCodePrefix(language: string)
    ensures var code := LanguageCode(language);
      && '-' !in code
      && StartsWith(language, code)
      && (code == language <==> '-' !in language)
      && (code != language ==> language[|code|] == '-')
  {
    SplitFirst(language, '-');
    SplitParts(language, '-');
    var i := IndexOf(language, '-');
    if '-' !in language {
      IndexOfAbsent(language, '-');
    }
  }

  /** `i18n.language.startsWith('no')` picks the Norwegian flag. */
  predicate NorwegianFlag(language: string) { StartsWith(language, "no") }

  /** The status badge: loading first, then an error, then loaded. */
  function DataStatus(loading: bool, error: Option<string>): string
  {
    if loading then "Loading data..." else if error.Some? then "Data error" else "Data loaded"
  }

  /** Loaded is shown exactly when nothing is loading and there is no error. */
  lemma DataStatusLoaded(loading: bool, error: Option<string>)
    ensures DataStatus(loading, error) == "Data loaded" <==> !loading && error.None?
  {
  }
}
