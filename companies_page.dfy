/** The company list page: the filter bar (free text, country, sector, category),
    the filtered and sorted table, its table cells, and paging by 50 rows with the
    page number kept in the page's state.

    The helpers this page defines for itself are partly copies of shared ones:
    `uniqueSorted` and the option-list filters are `CompanyFilters.UniqueSorted`
    and `CompanyFilters.OptionList`, `getCountryCode` and `truncate` are
    `SharedUtils.GetCountryCode` and `SharedUtils.Truncate`. Its own
    `labelForCategory` differs and is modelled here. */
module CompaniesPage {
  import opened Wrappers
  import opened Seqs
  import opened Text
  import opened Numbers
  import opened StableSort
  import opened Types
  import SharedUtils
  import CompanyFilters

  /** `labelForCategory(val, t)`: t defaults to the identity; "4" to "1" get their
      category key and anything else, the empty value included, the "all" key. */
  function LabelForCategory(val: string, t: Option<string -> string>): (shown: string)
    ensures var tr := if t.Some? then t.value else (k: string) => k;
      && (val == "1" ==> shown == tr("companies.category.c1"))
      && (val == "2" ==> shown == tr("companies.category.c2"))
      && (val == "3" ==> shown == tr("companies.category.c3"))
      && (val == "4" ==> shown == tr("companies.category.c4"))
      && (val !in {"1", "2", "3", "4"} ==> shown == tr("companies.category.all"))
  {
    var tr := if t.Some? then t.value else (k: string) => k;
    if val == "4" then tr("companies.category.c4")
    else if val == "3" then tr("companies.category.c3")
    else if val == "2" then tr("companies.category.c2")
    else if val == "1" then tr("companies.category.c1")
    else tr("companies.category.all")
  }

  /** The shared label helper agrees on the four categories, but gives "" where
      this page's copy gives the "all" label. */
  lemma LabelsAgreeOnCategories(val: string, t: string -> string)
    ensures val in {"1", "2", "3", "4"} ==> LabelForCategory(val, Some(t)) == SharedUtils.LabelForCategory(val, t)
    ensures val !in {"1", "2", "3", "4"} ==>
      LabelForCategory(val, Some(t)) == t("companies.category.all") && SharedUtils.LabelForCategory(val, t) == ""
  {
  }

  /** The category selector's options: value and label. */
  function CategoryOptions(t: string -> string): seq<(string, string)>
  {
    [("", t("companies.category.all")),
     ("4", t("companies.category.c4")),
     ("3", t("companies.category.c3")),
     ("2", t("companies.category.c2")),
     ("1", t("companies.category.c1"))]
  }

  /** Whichever category option is chosen, the selector shows its label. */
  lemma SelectedCategoryShown(t: string -> string, i: nat)
    requires i < |CategoryOptions(t)|
    ensures LabelForCategory(CategoryOptions(t)[i].0, Some(t)) == CategoryOptions(t)[i].1
  {
  }

  /** `companies.map((c) => c.country)` */
  function Countries(companies: seq<Company>): (r: seq<string>)
    ensures |r| == |companies|
    ensures forall i :: 0 <= i < |companies| ==> r[i] == companies[i].country
  {
    seq(|companies|, i requires 0 <= i < |companies| => companies[i].country)
  }

  /** `companies.map((c) => c.sector)` */
  function Sectors(companies: seq<Company>): (r: seq<string>)
    ensures |r| == |companies|
    ensures forall i :: 0 <= i < |companies| ==> r[i] == companies[i].sector
  {
    seq(|companies|, i requires 0 <= i < |companies| => companies[i].sector)
  }

  /** The country and sector choices: each non-empty country (sector) of some
      company, once. */
  lemma ChoicesFromCompanies(companies: seq<Company>, lc: (string, string) -> int)
    ensures forall x :: x in CompanyFilters.UniqueSorted(Countries(companies), lc) <==>
      x != "" && exists i :: 0 <= i < |companies| && companies[i].country == x
    ensures forall x :: x in CompanyFilters.UniqueSorted(Sectors(companies), lc) <==>
      x != "" && exists i :: 0 <= i < |companies| && companies[i].sector == x
  {
    CompanyFilters.UniqueSortedMembers(Countries(companies), lc);
    CompanyFilters.UniqueSortedMembers(Sectors(companies), lc);
    var cs := Countries(companies);
    var ss := Sectors(companies);
    forall x | x in cs
      ensures exists i :: 0 <= i < |companies| && companies[i].country == x
    {
      var i :| 0 <= i < |cs| && cs[i] == x;
    }
    forall x | x in ss
      ensures exists i :: 0 <= i < |companies| && companies[i].sector == x
    {
      var i :| 0 <= i < |ss| && ss[i] == x;
    }
    forall x | exists i :: 0 <= i < |companies| && companies[i].country == x
      ensures x in cs
    {
      var i :| 0 <= i < |companies| && companies[i].country == x;
      assert cs[i] == x;
    }
    forall x | exists i :: 0 <= i < |companies| && companies[i].sector == x
      ensures x in ss
    {
      var i :| 0 <= i < |companies| && companies[i].sector == x;
      assert ss[i] == x;
    }
  }

  // ---------------------------------------------------------------- filtering

  /** The four filter values of the page; "" means "no filter". */
  datatype Filters = Filters(q: string, country: string, sector: string, category: string)

  const NoFilters: Filters := Filters("", "", "", "")

  /** `c.shallowReport?.riskAssessment` */
  function ShallowAssessment(c: Company): Option<RiskAssessment>
  {
    if c.shallowReport.Some? then c.shallowReport.value.riskAssessment else None
  }

  /** `field?.toLowerCase().includes(needle) ?? false` */
  predicate FieldContains(field: Option<string>, needle: string)
  {
    field.Some? && Contains(Lower(field.value), needle)
  }

  /** The free-text test: the query, lower-cased, occurs in the lower-cased name or
      in the shallow report's concerns or rationale. */
  predicate MatchesSearch(c: Company, q: string)
  {
    var needle := Lower(q);
    var ra := ShallowAssessment(c);
    || Contains(Lower(c.name), needle)
    || (ra.Some? && (FieldContains(ra.value.concerns, needle) || FieldContains(ra.value.rationale, needle)))
  }

  /** `!filter || value.toLowerCase() === filter.toLowerCase()` */
  predicate MatchesExactly(value: string, filter: string)
  {
    filter == "" || Lower(value) == Lower(filter)
  }

  /** `c.category.toString()` for a truthy category; 0, NaN and undefined are falsy. */
  function CategoryText(category: CategoryValue): Option<string>
  {
    match category
    case Category(n) => if n != 0 then Some(IntToString(n)) else None
    case _ => None
  }

  /** `!category || (c.category && c.category.toString() === category)` */
  predicate MatchesCategory(c: Company, filter: string)
  {
    filter == "" || CategoryText(c.category) == Some(filter)
  }

  /** The filter callback: all four tests at once. */
  function Matches(f: Filters): Company -> bool
  {
    (c: Company) =>
      && MatchesSearch(c, f.q)
      && MatchesExactly(c.country, f.country)
      && MatchesExactly(c.sector, f.sector)
      && MatchesCategory(c, f.category)
  }

  /** With no filter set, every company is listed. */
  lemma NoFiltersMatchAll(c: Company)
    ensures Matches(NoFilters)(c)
  {
    assert Lower("") == "";
    ContainsEmpty(Lower(c.name));
  }

  /** The filters are AND-combined: clearing any one of them keeps every company
      that matched before. */
  lemma ClearingAFilterWidens(f: Filters, c: Company)
    requires Matches(f)(c)
    ensures Matches(f.(q := ""))(c)
    ensures Matches(f.(country := ""))(c)
    ensures Matches(f.(sector := ""))(c)
    ensures Matches(f.(category := ""))(c)
  {
    assert Lower("") == "";
    ContainsEmpty(Lower(c.name));
  }

  /** The free-text search reads only the shallow report: the deep report has no
      influence on which companies match. */
  lemma DeepReportNotSearched(f: Filters, c: Company, deep: Option<Report>)
    ensures Matches(f)(c.(deepReport := deep)) == Matches(f)(c)
  {
  }

  /** A name containing the query, whatever the case of either, matches the search. */
  lemma NameContainingQueryMatches(c: Company, q: string, before: string, after: string)
    requires Lower(c.name) == Lower(before) + Lower(q) + Lower(after)
    ensures MatchesSearch(c, q)
  {
    assert OccursAt(Lower(c.name), Lower(q), |Lower(before)|);
  }

  /** A category filter that is the decimal text of n lets through exactly the
      companies of category n, and none at all for n = 0 (a falsy category). */
  lemma CategoryFilterExact(c: Company, n: int)
    ensures MatchesCategory(c, IntToString(n)) <==> n != 0 && c.category == Category(n)
  {
    if MatchesCategory(c, IntToString(n)) {
      assert IntToString(n) != "";
      var m := c.category.n;
      IntToStringInjective(m, n);
    }
  }

  // ------------------------------------------------------------------ sorting

  /** `a.category ?? 99`: a missing category sorts as 99; NaN is None. */
  function CategorySortKey(category: CategoryValue): Option<int>
  {
    match category
    case NoCategory => Some(99)
    case NotANumber => None
    case Category(n) => Some(n)
  }

  /** The comparator of the table, as "a may stand before b": report status
      descending, then category ascending, then name by `localeCompare` (lc). A NaN
      category makes the difference NaN, which the sort reads as "equal". */
  predicate Precedes(lc: (string, string) -> int, a: Company, b: Company)
  {
    if a.aiReportStatus != b.aiReportStatus then b.aiReportStatus - a.aiReportStatus <= 0
    else
      var ka := CategorySortKey(a.category);
      var kb := CategorySortKey(b.category);
      if ka.None? || kb.None? then true
      else if ka.value != kb.value then ka.value - kb.value <= 0
      else lc(a.name, b.name) <= 0
  }

  function CompanyOrder(lc: (string, string) -> int): (Company, Company) -> bool
  {
    (a: Company, b: Company) => Precedes(lc, a, b)
  }

  /** `localeCompare` on names, as "a may stand before b". */
  function ByName(lc: (string, string) -> int): (Company, Company) -> bool
  {
    (a: Company, b: Company) => lc(a.name, b.name) <= 0
  }

  /** `filteredCompanies`: the matching companies in table order. */
  function FilteredCompanies(companies: seq<Company>, f: Filters, lc: (string, string) -> int): seq<Company>
  {
    Sort(Filter(companies, Matches(f)), CompanyOrder(lc))
  }

  /** The table lists every matching company once and nothing else: it is a
      permutation of the matching companies. */
  lemma FilteredIsPermutation(companies: seq<Company>, f: Filters, lc: (string, string) -> int)
    ensures multiset(FilteredCompanies(companies, f, lc)) == multiset(Filter(companies, Matches(f)))
    ensures forall c :: c in FilteredCompanies(companies, f, lc) <==> c in companies && Matches(f)(c)
  {
    var kept := Filter(companies, Matches(f));
    SortPermutation(kept, CompanyOrder(lc));
    SortMembers(kept, CompanyOrder(lc));
    FilterMembers(companies, Matches(f));
  }

  /** With no NaN category and a `localeCompare` that orders the names
      consistently, the comparator is a total preorder. */
  lemma OrderIsPreorder(lc: (string, string) -> int, s: seq<Company>)
    requires forall i :: 0 <= i < |s| ==> s[i].category != NotANumber
    requires TotalPreorderOn(ByName(lc), s)
    ensures TotalPreorderOn(CompanyOrder(lc), s)
  {
    var le := CompanyOrder(lc);
    forall a, b | a in s && b in s
      ensures le(a, b) || le(b, a)
    {
      assert ByName(lc)(a, b) || ByName(lc)(b, a);
    }
    forall a, b, c | a in s && b in s && c in s && le(a, b) && le(b, c)
      ensures le(a, c)
    {
      assert a.category != NotANumber && b.category != NotANumber && c.category != NotANumber;
      if a.aiReportStatus == b.aiReportStatus == c.aiReportStatus
        && CategorySortKey(a.category) == CategorySortKey(b.category) == CategorySortKey(c.category) {
        assert ByName(lc)(a, b) && ByName(lc)(b, c);
        assert ByName(lc)(a, c);
      }
    }
  }

  /** With no NaN category among the companies and a consistent `localeCompare`,
      the table is ordered by report status (2, 1, 0), then by category with a
      missing one last as 99, then by name. */
  lemma FilteredIsOrdered(companies: seq<Company>, f: Filters, lc: (string, string) -> int)
    requires forall i :: 0 <= i < |companies| ==> companies[i].category != NotANumber
    requires TotalPreorderOn(ByName(lc), companies)
    ensures var r := FilteredCompanies(companies, f, lc);
      forall i, j :: 0 <= i < j < |r| ==>
        var ki := CategorySortKey(r[i].category);
        var kj := CategorySortKey(r[j].category);
        && ki.Some? && kj.Some?
        && (|| r[i].aiReportStatus > r[j].aiReportStatus
            || (r[i].aiReportStatus == r[j].aiReportStatus && ki.value < kj.value)
            || (r[i].aiReportStatus == r[j].aiReportStatus && ki.value == kj.value
                && lc(r[i].name, r[j].name) <= 0))
  {
    var kept := Filter(companies, Matches(f));
    FilterMembers(companies, Matches(f));
    forall x | x in kept
      ensures x in companies
    {
    }
    PreorderSubset(ByName(lc), companies, kept);
    forall i | 0 <= i < |kept|
      ensures kept[i].category != NotANumber
    {
      assert kept[i] in kept;
      var k :| 0 <= k < |companies| && companies[k] == kept[i];
    }
    OrderIsPreorder(lc, kept);
    SortSorted(kept, CompanyOrder(lc));
    var r := Sort(kept, CompanyOrder(lc));
    forall i, j | 0 <= i < j < |r|
      ensures var ki := CategorySortKey(r[i].category);
        var kj := CategorySortKey(r[j].category);
        && ki.Some? && kj.Some?
        && (|| r[i].aiReportStatus > r[j].aiReportStatus
            || (r[i].aiReportStatus == r[j].aiReportStatus && ki.value < kj.value)
            || (r[i].aiReportStatus == r[j].aiReportStatus && ki.value == kj.value
                && lc(r[i].name, r[j].name) <= 0))
    {
      SortMember(kept, CompanyOrder(lc), r[i]);
      SortMember(kept, CompanyOrder(lc), r[j]);
      assert CompanyOrder(lc)(r[i], r[j]);
    }
  }

  // ------------------------------------------------------------------- paging

  const ItemsPerPage: nat := 50

  /** `Math.ceil(n / ITEMS_PER_PAGE)`: the fewest pages of 50 that hold n rows. */
  function PageCount(n: nat): (pages: nat)
    ensures n <= pages * ItemsPerPage
    ensures pages > 0 ==> (pages - 1) * ItemsPerPage < n
  {
    (n + ItemsPerPage - 1) / ItemsPerPage
  }

  /** `filteredCompanies.slice((page - 1) * 50, page * 50)` */
  function PageItems(filtered: seq<Company>, page: int): seq<Company>
  {
    Slice(filtered, (page - 1) * ItemsPerPage, page * ItemsPerPage)
  }

  /** A page holds the rows from (page - 1) * 50 up to page * 50, at most 50 of them,
      and a page past the last one is empty. */
  lemma PageItemsRange(filtered: seq<Company>, page: int)
    requires page >= 1
    ensures var from := (page - 1) * ItemsPerPage;
      PageItems(filtered, page) == if from < |filtered| then filtered[from..Min(page * ItemsPerPage, |filtered|)] else []
    ensures |PageItems(filtered, page)| <= ItemsPerPage
    ensures page > PageCount(|filtered|) ==> PageItems(filtered, page) == []
  {
    SliceNonNegative(filtered, (page - 1) * ItemsPerPage, page * ItemsPerPage);
  }

  /** Every row of the filtered list is on exactly one page: row i is row i % 50 of
      page i / 50 + 1, which is a page between 1 and the page count. */
  lemma RowOnItsPage(filtered: seq<Company>, i: nat)
    requires i < |filtered|
    ensures var page := i / ItemsPerPage + 1;
      && 1 <= page <= PageCount(|filtered|)
      && i % ItemsPerPage < |PageItems(filtered, page)|
      && PageItems(filtered, page)[i % ItemsPerPage] == filtered[i]
  {
    var page := i / ItemsPerPage + 1;
    PageItemsRange(filtered, page);
    assert (page - 1) * ItemsPerPage + i % ItemsPerPage == i;
  }

  // -------------------------------------------------------------------- cells

  /** `a || b` on optional strings: the first one that is neither missing nor "". */
  function OrElse(a: Option<string>, b: string): string
  {
    if a.Some? && a.value != "" then a.value else b
  }

  function AssessmentOf(report: Option<Report>): Option<RiskAssessment>
  {
    if report.Some? then report.value.riskAssessment else None
  }

  function ConcernsOf(report: Option<Report>): Option<string>
  {
    var ra := AssessmentOf(report);
    if ra.Some? then ra.value.concerns else None
  }

  function GuidelinesOf(report: Option<Report>): Option<seq<string>>
  {
    var ra := AssessmentOf(report);
    if ra.Some? then ra.value.guidelines else None
  }

  /** The concerns cell: the deep report's concerns, else the shallow report's,
      else "-", cut to 200 characters. */
  function ConcernsCell(c: Company): (cell: string)
    ensures cell != "" && |cell| <= 201
    ensures ConcernsOf(c.deepReport).Some? && ConcernsOf(c.deepReport).value != "" ==>
      cell == SharedUtils.Truncate(ConcernsOf(c.deepReport).value, 200)
    ensures ConcernsOf(c.deepReport) in {None, Some("")} && ConcernsOf(c.shallowReport) in {None, Some("")} ==>
      cell == "-"
    ensures ConcernsOf(c.deepReport) in {None, Some("")} && ConcernsOf(c.shallowReport).Some? && ConcernsOf(c.shallowReport).value != "" ==>
      cell == SharedUtils.Truncate(ConcernsOf(c.shallowReport).value, 200)
  {
    var text := OrElse(ConcernsOf(c.deepReport), OrElse(ConcernsOf(c.shallowReport), "-"));
    SharedUtils.TruncateKeepsPrefix(text, 200);
    SharedUtils.Truncate(text, 200)
  }

  /** The guidelines cell: the deep report's list, else the shallow report's, joined
      by ", ", or "-" when that is empty, cut to 200 characters. Any list counts as
      given, so an empty deep list shows "-" even when the shallow report has some. */
  function GuidelinesCell(c: Company): (cell: string)
    ensures cell != "" && |cell| <= 201
    ensures GuidelinesOf(c.deepReport) == Some([]) ==> cell == "-"
    ensures GuidelinesOf(c.deepReport).None? && GuidelinesOf(c.shallowReport).None? ==> cell == "-"
    ensures GuidelinesOf(c.deepReport).Some? ==>
      var joined := Join(GuidelinesOf(c.deepReport).value, ", ");
      cell == if joined != "" then SharedUtils.Truncate(joined, 200) else "-"
    ensures GuidelinesOf(c.deepReport).None? && GuidelinesOf(c.shallowReport).Some? ==>
      var joined := Join(GuidelinesOf(c.shallowReport).value, ", ");
      cell == if joined != "" then SharedUtils.Truncate(joined, 200) else "-"
  {
    var list := if GuidelinesOf(c.deepReport).Some? then GuidelinesOf(c.deepReport) else GuidelinesOf(c.shallowReport);
    var joined := if list.Some? then Some(Join(list.value, ", ")) else None;
    var text := OrElse(joined, "-");
    SharedUtils.TruncateKeepsPrefix(text, 200);
    SharedUtils.Truncate(text, 200)
  }

  /** A deep list with a single guideline shows it, ignoring the shallow report. */
  lemma DeepGuidelinePreferred(c: Company, g: string)
    requires GuidelinesOf(c.deepReport) == Some([g]) && g != ""
    ensures GuidelinesCell(c) == SharedUtils.Truncate(g, 200)
  {
  }

  /** Once the deep report has a guideline list, even an empty one, the shallow
      report plays no part in the cell. */
  lemma DeepListShadowsShallow(c: Company, shallow: Option<Report>)
    requires GuidelinesOf(c.deepReport).Some?
    ensures GuidelinesCell(c.(shallowReport := shallow)) == GuidelinesCell(c)
  {
  }

  // -------------------------------------------------------------- page state

  /** The page's state: the loaded companies, `localeCompare`, the four filters
      and the current page. */
  class PageState {
    const companies: seq<Company>
    const lc: (string, string) -> int
    var filters: Filters
    var page: int

    function Filtered(): seq<Company>
      reads this
    {
      FilteredCompanies(companies, filters, lc)
    }

    function Pages(): nat
      reads this
    {
      PageCount(|Filtered()|)
    }

    /** The rows of the table. */
    function Visible(): seq<Company>
      reads this
    {
      PageItems(Filtered(), page)
    }

    predicate PrevDisabled()
      reads this
    {
      page <= 1
    }

    predicate NextDisabled()
      reads this
    {
      page >= Pages()
    }

    /** The page is a real page, or page 1 of an empty list. */
    ghost predicate Valid()
      reads this
    {
      1 <= page && (page <= Pages() || page == 1)
    }

    /** The filters start from the URL (`searchParams.get(k) || ''`). The page read
        from the URL is overwritten by the reset effect on mount, so the page
        starts at 1. */
    constructor(companies: seq<Company>, lc: (string, string) -> int,
                q: Option<string>, country: Option<string>, sector: Option<string>, category: Option<string>)
      ensures this.companies == companies && this.lc == lc
      ensures filters == Filters(q.GetOr(""), country.GetOr(""), sector.GetOr(""), category.GetOr(""))
      ensures page == 1
      ensures Valid()
    {
      this.companies := companies;
      this.lc := lc;
      filters := Filters(q.GetOr(""), country.GetOr(""), sector.GetOr(""), category.GetOr(""));
      page := 1;
    }

    /** A new filter value; the reset effect runs only when the value changes. */
    method SetFilters(f: Filters)
      requires Valid()
      modifies this
      ensures filters == f
      ensures page == if f == old(filters) then old(page) else 1
      ensures Valid()
    {
      if f != filters {
        page := 1;
      }
      filters := f;
    }

    method SetQuery(q: string)
      requires Valid()
      modifies this
      ensures filters == old(filters).(q := q)
      ensures page == if q == old(filters.q) then old(page) else 1
      ensures Valid()
    {
      SetFilters(filters.(q := q));
    }

    method SetCountry(country: string)
      requires Valid()
      modifies this
      ensures filters == old(filters).(country := country)
      ensures page == if country == old(filters.country) then old(page) else 1
      ensures Valid()
    {
      SetFilters(filters.(country := country));
    }

    method SetSector(sector: string)
      requires Valid()
      modifies this
      ensures filters == old(filters).(sector := sector)
      ensures page == if sector == old(filters.sector) then old(page) else 1
      ensures Valid()
    {
      SetFilters(filters.(sector := sector));
    }

    method SetCategory(category: string)
      requires Valid()
      modifies this
      ensures filters == old(filters).(category := category)
      ensures page == if category == old(filters.category) then old(page) else 1
      ensures Valid()
    {
      SetFilters(filters.(category := category));
    }

    /** The previous button: a click when enabled sets `Math.max(1, p - 1)`. */
    method Prev()
      requires Valid()
      modifies this
      ensures filters == old(filters)
      ensures page == if old(page) <= 1 then old(page) else old(page) - 1
      ensures page >= 1
      ensures Valid()
    {
      if !PrevDisabled() {
        page := Max(1, page - 1);
      }
    }

    /** The next button: a click when enabled sets `p + 1`. */
    method Next()
      requires Valid()
      modifies this
      ensures filters == old(filters)
      ensures page == if old(page) >= Pages() then old(page) else old(page) + 1
      ensures Valid()
    {
      if !NextDisabled() {
        page := page + 1;
      }
    }
  }
}
