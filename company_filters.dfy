/** The option lists of the company filter bar: the distinct countries and sectors
    in locale order, narrowed by what the user types into the combo box, and the
    label of the report-type selector. */
module CompanyFilters {
  import opened Seqs
  import opened Text
  import opened StableSort

  /** `localeCompare` is the parameter lc; `le(a, b)` when `lc(a, b) <= 0`. */
  function LocaleLe(lc: (string, string) -> int): (string, string) -> bool
  {
    (a: string, b: string) => lc(a, b) <= 0
  }

  predicate NonEmpty(s: string) { s != "" }

  /** `Array.from(new Set(values.filter(Boolean))).sort((a, b) => a.localeCompare(b))` */
  function UniqueSorted(values: seq<string>, lc: (string, string) -> int): seq<string>
  {
    Sort(Dedup(Filter(values, NonEmpty)), LocaleLe(lc))
  }

  /** The result lists every non-empty input value, nothing else, and none twice. */
  lemma UniqueSortedMembers(values: seq<string>, lc: (string, string) -> int)
    ensures forall x :: x in UniqueSorted(values, lc) <==> x in values && x != ""
    ensures Distinct(UniqueSorted(values, lc))
  {
    var kept := Filter(values, NonEmpty);
    var unique := Dedup(kept);
    FilterMembers(values, NonEmpty);
    SortMembers(unique, LocaleLe(lc));
    SortDistinct(unique, LocaleLe(lc));
    forall x | x in unique
      ensures x in kept
    {
      var i :| 0 <= i < |unique| && unique[i] == x;
    }
    forall x | x in kept
      ensures x in unique
    {
      var i :| 0 <= i < |kept| && kept[i] == x;
    }
  }

  /** When `localeCompare` orders the values consistently (a total preorder), the
      result is in ascending locale order. */
  lemma UniqueSortedOrdered(values: seq<string>, lc: (string, string) -> int)
    requires TotalPreorderOn(LocaleLe(lc), values)
    ensures forall i, j :: 0 <= i < j < |UniqueSorted(values, lc)| ==>
      lc(UniqueSorted(values, lc)[i], UniqueSorted(values, lc)[j]) <= 0
  {
    var unique := Dedup(Filter(values, NonEmpty));
    UniqueSortedMembers(values, lc);
    FilterMembers(values, NonEmpty);
    forall x | x in unique
      ensures x in values
    {
      var i :| 0 <= i < |unique| && unique[i] == x;
    }
    PreorderSubset(LocaleLe(lc), values, unique);
    SortSorted(unique, LocaleLe(lc));
    var r := UniqueSorted(values, lc);
    forall i, j | 0 <= i < j < |r|
      ensures lc(r[i], r[j]) <= 0
    {
      assert LocaleLe(lc)(r[i], r[j]);
    }
  }

  /** `x.toLowerCase().includes(query.toLowerCase())` */
  function MatchesQuery(query: string): string -> bool
  {
    (x: string) => Contains(Lower(x), Lower(query))
  }

  /** The country (or sector) options shown for what the user typed. */
  function OptionList(options: seq<string>, query: string): seq<string>
  {
    if query == "" then options else Filter(options, MatchesQuery(query))
  }

  /** Nothing typed: every option. Something typed: the options that contain it,
      ignoring case, in their original order (a sub-sequence of the options). */
  lemma OptionListMembers(options: seq<string>, query: string)
    ensures query == "" ==> OptionList(options, query) == options
    ensures query != "" ==> OptionList(options, query) == Filter(options, MatchesQuery(query))
    ensures forall x :: x in OptionList(options, query) <==>
      x in options && (query == "" || Contains(Lower(x), Lower(query)))
    ensures |OptionList(options, query)| <= |options|
  {
    FilterMembers(options, MatchesQuery(query));
  }

  /** Filtering keeps the options' order: what is kept from a prefix of the
      options comes first. */
  lemma OptionListOrder(options: seq<string>, more: seq<string>, query: string)
    ensures OptionList(options + more, query) == OptionList(options, query) + OptionList(more, query)
  {
    FilterConcat(options, more, MatchesQuery(query));
  }

  /** The name part of the report-type key: `{ '0': 'none', '1': 'basic', '2': 'deep' }[reportType]`,
      which is `undefined` for any other value. */
  function ReportTypeName(reportType: string): string
  {
    if reportType == "0" then "none"
    else if reportType == "1" then "basic"
    else if reportType == "2" then "deep"
    else "undefined"
  }

  /** The selector's button label, translated by t. */
  function ReportTypeLabel(reportType: string, t: string -> string): (shown: string)
    ensures reportType == "" ==> shown == t("companies.report_type.all")
    ensures reportType == "0" ==> shown == t("companies.report_type.none")
    ensures reportType == "1" ==> shown == t("companies.report_type.basic")
    ensures reportType == "2" ==> shown == t("companies.report_type.deep")
    ensures reportType !in {"", "0", "1", "2"} ==> shown == t("companies.report_type.undefined")
  {
    assert "companies.report_type." + "none" == "companies.report_type.none";
    assert "companies.report_type." + "basic" == "companies.report_type.basic";
    assert "companies.report_type." + "deep" == "companies.report_type.deep";
    assert "companies.report_type." + "undefined" == "companies.report_type.undefined";
    if reportType != "" then t("companies.report_type." + ReportTypeName(reportType))
    else t("companies.report_type.all")
  }

  /** The options of the selector, value and label. */
  function ReportTypeOptions(t: string -> string): seq<(string, string)>
  {
    [("", t("companies.report_type.all")),
     ("2", t("companies.report_type.deep")),
     ("1", t("companies.report_type.basic")),
     ("0", t("companies.report_type.none"))]
  }

  /** Whichever option is chosen, the button shows that option's label. */
  lemma SelectedOptionShown(t: string -> string, i: nat)
    requires i < |ReportTypeOptions(t)|
    ensures ReportTypeLabel(ReportTypeOptions(t)[i].0, t) == ReportTypeOptions(t)[i].1
  {
  }
}
