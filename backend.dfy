/** The backend service: it loads the evaluated holdings once, indexes them by id,
    and answers a paged, filtered and sorted listing, a lookup by id and a count
    summary. */
module Backend {
  import opened Wrappers
  import opened Seqs
  import opened Text
  import opened Numbers
  import opened StableSort
  import opened Tallies
  import opened Slugs

  // ------------------------------------------------------------------ slugs

  /** `_slugify`: strip, lower-case, runs of other characters to one hyphen,
      runs of hyphens to one, end hyphens removed, and "item" for nothing left. */
  function Slugify(value: string): string
  {
    var t := StripHyphens(ReplaceRuns(HyphenRuns(Lower(PyStrip(value))), IsHyphen, "-"));
    if t == "" then "item" else t
  }

  /** A slug of lower-case letters, digits and inner single hyphens, never empty. */
  lemma SlugifyIsSlug(value: string)
    ensures IsSlug(Slugify(value)) && Slugify(value) != ""
  {
    var h := HyphenRuns(Lower(PyStrip(value)));
    HyphenRunsShape(Lower(PyStrip(value)));
    ReplaceRunsFixpoint(h, IsHyphen, '-');
    StripHyphensSlug(h);
    ItemIsSlug();
  }

  lemma ItemIsSlug()
    ensures IsSlug("item")
  {
    assert forall i :: 0 <= i < |"item"| ==> "item"[i] != '-';
  }

  /** A slug is its own slug. */
  lemma SlugOfSlug(s: string)
    requires IsSlug(s) && s != ""
    ensures Slugify(s) == s
  {
    SlugStripped(s);
    SlugLower(s);
    SlugRunsUnchanged(s);
    SlugHyphensStripped(s);
  }

  /** Slugifying twice is slugifying once. */
  lemma SlugifyIdempotent(value: string)
    ensures Slugify(Slugify(value)) == Slugify(value)
  {
    SlugifyIsSlug(value);
    SlugOfSlug(Slugify(value));
  }

  // ---------------------------------------------------------------- loading

  /** The JSON values a row field can hold, as far as the loader tells them apart. */
  datatype Value = Str(s: string) | Int(n: int) | Null

  type Row = map<string, Value>

  /** `CompanyEvaluation` */
  datatype Evaluation = Evaluation(
    id: string,
    name: string,
    country: string,
    sector: string,
    concerns: string,
    guideline: string,
    category: int,
    rationale: string)

  /** `row.get(key, default)` for a text field: a missing key gives the default, a
      non-text value is rejected. */
  function TextField(row: Row, key: string, default: string): Result<string, string>
  {
    if key !in row then Ok(default)
    else if row[key].Str? then Ok(row[key].s)
    else Err("invalid " + key)
  }

  /** `int(row.get("category", 1))`: missing is 1, a number is itself, text must
      read as an integer, null is rejected. */
  function CategoryField(row: Row): Result<int, string>
  {
    if "category" !in row then Ok(1)
    else match row["category"]
      case Int(n) => Ok(n)
      case Str(s) => if PyInt(s).Some? then Ok(PyInt(s).value) else Err("invalid category")
      case Null => Err("invalid category")
  }

  /** The fields of one row, read in the order of the constructor call; the id is
      left empty here and filled in by `LoadRow`. */
  function ReadFields(row: Row): Result<Evaluation, string>
  {
    var name := TextField(row, "name", "");
    var country := TextField(row, "country", "Unknown");
    var sector := TextField(row, "sector", "Unknown");
    var concerns := TextField(row, "concerns", "");
    var guideline := TextField(row, "guideline", "");
    var category := CategoryField(row);
    var rationale := TextField(row, "rationale", "");
    if name.Err? then Err(name.error)
    else if country.Err? then Err(country.error)
    else if sector.Err? then Err(sector.error)
    else if concerns.Err? then Err(concerns.error)
    else if guideline.Err? then Err(guideline.error)
    else if category.Err? then Err(category.error)
    else if rationale.Err? then Err(rationale.error)
    else Ok(Evaluation("", name.value, country.value, sector.value,
                       concerns.value, guideline.value, category.value, rationale.value))
  }

  /** One row of the data file as an evaluation. The id is always the slug of the
      name; an id in the row is not read. */
  function LoadRow(row: Row): Result<Evaluation, string>
  {
    match ReadFields(row)
    case Err(e) => Err(e)
    case Ok(e) => Ok(e.(id := Slugify(e.name)))
  }

  /** Every element through `f`, in order; the first failure is the result. */
  function Collect<A, B>(xs: seq<A>, f: A -> Result<B, string>): Result<seq<B>, string>
    decreases |xs|
  {
    if xs == [] then Ok([])
    else
      var init := Collect(xs[..|xs| - 1], f);
      if init.Err? then init
      else
        var last := f(xs[|xs| - 1]);
        if last.Err? then Err(last.error) else Ok(init.value + [last.value])
  }

  /** Once a prefix fails, the whole collection fails with the same error. */
  lemma {:induction false} CollectFailsOnward<A, B>(xs: seq<A>, f: A -> Result<B, string>, n: nat)
    requires n <= |xs|
    requires Collect(xs[..n], f).Err?
    ensures Collect(xs, f) == Collect(xs[..n], f)
    decreases |xs| - n
  {
    if n < |xs| {
      assert xs[..n + 1][..n] == xs[..n];
      CollectFailsOnward(xs, f, n + 1);
    } else {
      assert xs[..n] == xs;
    }
  }

  /** The collection succeeds exactly when every element does, and then holds one
      result per element, in order. */
  lemma {:induction false} CollectAll<A, B>(xs: seq<A>, f: A -> Result<B, string>)
    ensures Collect(xs, f).Ok? <==> forall i :: 0 <= i < |xs| ==> f(xs[i]).Ok?
    ensures Collect(xs, f).Ok? ==>
      && |Collect(xs, f).value| == |xs|
      && forall i :: 0 <= i < |xs| ==> Collect(xs, f).value[i] == f(xs[i]).value
    decreases |xs|
  {
    if xs != [] {
      var init := xs[..|xs| - 1];
      CollectAll(init, f);
      assert forall i :: 0 <= i < |init| ==> init[i] == xs[i];
    }
  }

  /** All rows in order; the first row that fails fails the load. */
  function LoadAll(rows: seq<Row>): Result<seq<Evaluation>, string>
  {
    Collect(rows, LoadRow)
  }

  /** `_load_dataset` after the file is read: the loop appending one evaluation
      per row. */
  method LoadDataset(rows: seq<Row>) returns (r: Result<seq<Evaluation>, string>)
    ensures r == LoadAll(rows)
  {
    var items: seq<Evaluation> := [];
    var i := 0;
    while i < |rows|
      invariant 0 <= i <= |rows|
      invariant Collect(rows[..i], LoadRow) == Ok(items)
    {
      assert rows[..i + 1][..i] == rows[..i];
      var row := LoadRow(rows[i]);
      if row.Err? {
        assert Collect(rows[..i + 1], LoadRow).Err?;
        CollectFailsOnward(rows, LoadRow, i + 1);
        return Err(row.error);
      }
      items := items + [row.value];
      i := i + 1;
    }
    assert rows[..i] == rows;
    r := Ok(items);
  }

  /** The load succeeds exactly when every row does, and then gives one evaluation
      per row, in order. */
  lemma LoadAllRows(rows: seq<Row>)
    ensures LoadAll(rows).Ok? <==> forall i :: 0 <= i < |rows| ==> LoadRow(rows[i]).Ok?
    ensures LoadAll(rows).Ok? ==>
      && |LoadAll(rows).value| == |rows|
      && forall i :: 0 <= i < |rows| ==> LoadAll(rows).value[i] == LoadRow(rows[i]).value
  {
    CollectAll(rows, LoadRow);
  }

  /** A row without a name gets id "item". */
  lemma EmptyNameSlug()
    ensures Slugify("") == "item"
  {
    assert PyStrip("") == "" && Lower("") == "" && HyphenRuns("") == "";
    assert ReplaceRuns("", IsHyphen, "-") == "" && StripHyphens("") == "";
  }

  /** A row without a name loads with an empty name and id "item". */
  lemma LoadRowId(row: Row)
    requires LoadRow(row).Ok? && "name" !in row
    ensures LoadRow(row).value.name == "" && LoadRow(row).value.id == "item"
  {
    LoadRowSlug(row);
    NoNameReadsEmpty(row);
    EmptyNameSlug();
  }

  lemma NoNameReadsEmpty(row: Row)
    requires ReadFields(row).Ok? && "name" !in row
    ensures ReadFields(row).value.name == ""
  {
  }

  /** The loaded evaluation is the row's fields with the slug of the name as id. */
  lemma LoadRowSlug(row: Row)
    requires LoadRow(row).Ok?
    ensures ReadFields(row).Ok?
    ensures LoadRow(row).value == ReadFields(row).value.(id := Slugify(ReadFields(row).value.name))
  {
  }

  /** The defaults of the fields a row leaves out. */
  lemma ReadFieldsDefaults(row: Row)
    requires ReadFields(row).Ok?
    ensures var e := ReadFields(row).value;
      && ("country" !in row ==> e.country == "Unknown")
      && ("sector" !in row ==> e.sector == "Unknown")
      && ("concerns" !in row ==> e.concerns == "")
      && ("guideline" !in row ==> e.guideline == "")
      && ("rationale" !in row ==> e.rationale == "")
      && ("category" !in row ==> e.category == 1)
      && ("category" in row && row["category"].Int? ==> e.category == row["category"].n)
  {
  }

  /** The defaults of the fields a row leaves out, in the loaded evaluation. */
  lemma LoadRowDefaults(row: Row)
    requires LoadRow(row).Ok?
    ensures var e := LoadRow(row).value;
      && ("country" !in row ==> e.country == "Unknown")
      && ("sector" !in row ==> e.sector == "Unknown")
      && ("concerns" !in row ==> e.concerns == "")
      && ("guideline" !in row ==> e.guideline == "")
      && ("rationale" !in row ==> e.rationale == "")
      && ("category" !in row ==> e.category == 1)
      && ("category" in row && row["category"].Int? ==> e.category == row["category"].n)
  {
    ReadFieldsDefaults(row);
  }

  /** A field other than the id reads the same with the id changed. */
  lemma FieldsIgnoreId(row: Row, v: Value, key: string, default: string)
    requires key != "id"
    ensures TextField(row["id" := v], key, default) == TextField(row, key, default)
    ensures CategoryField(row["id" := v]) == CategoryField(row)
  {
  }

  /** The id in a row makes no difference. */
  lemma RowIdIgnored(row: Row, v: Value)
    ensures LoadRow(row["id" := v]) == LoadRow(row)
  {
    FieldsIgnoreId(row, v, "name", "");
    FieldsIgnoreId(row, v, "country", "Unknown");
    FieldsIgnoreId(row, v, "sector", "Unknown");
    FieldsIgnoreId(row, v, "concerns", "");
    FieldsIgnoreId(row, v, "guideline", "");
    FieldsIgnoreId(row, v, "rationale", "");
  }

  /** A null category fails the load of its row. */
  lemma NullCategoryRejected(row: Row)
    requires "category" in row && row["category"] == Null
    ensures LoadRow(row).Err?
  {
    assert CategoryField(row).Err?;
    assert ReadFields(row).Err?;
  }

  // --------------------------------------------------------------- the index

  /** `{c.id: c for c in items}`: later items overwrite earlier ones. */
  function Index(items: seq<Evaluation>): map<string, Evaluation>
    decreases |items|
  {
    if items == [] then map[]
    else Index(items[..|items| - 1])[items[|items| - 1].id := items[|items| - 1]]
  }

  /** Every id is indexed, to the last item that carries it. */
  lemma IndexLastWins(items: seq<Evaluation>)
    ensures forall k :: k in Index(items) <==> exists i :: 0 <= i < |items| && items[i].id == k
    ensures forall k :: k in Index(items) ==>
      exists i :: 0 <= i < |items| && items[i].id == k && Index(items)[k] == items[i]
        && forall j :: i < j < |items| ==> items[j].id != k
  {
    IndexKeys(items);
    IndexValues(items);
    forall k | k in Index(items)
      ensures exists i ::
        0 <= i < |items| && items[i].id == k && Index(items)[k] == items[i]
        && forall j :: i < j < |items| ==> items[j].id != k
    {
      var i := LastWith(items, k);
      assert items[i].id == k && Index(items)[k] == items[i];
    }
  }

  lemma {:induction false} IndexKeys(items: seq<Evaluation>)
    ensures forall k :: k in Index(items) <==> exists i :: 0 <= i < |items| && items[i].id == k
    decreases |items|
  {
    if items != [] {
      var init := items[..|items| - 1];
      IndexKeys(init);
      assert forall i :: 0 <= i < |init| ==> init[i] == items[i];
    }
  }

  /** The position of the last item with id k, or -1 when there is none. */
  function LastWith(items: seq<Evaluation>, k: string): (i: int)
    ensures -1 <= i < |items|
    ensures i >= 0 ==> items[i].id == k
    ensures forall j :: i < j < |items| ==> items[j].id != k
    decreases |items|
  {
    if items == [] then -1
    else if items[|items| - 1].id == k then |items| - 1
    else LastWith(items[..|items| - 1], k)
  }

  lemma {:induction false} IndexValues(items: seq<Evaluation>)
    ensures forall k :: k in Index(items) ==> LastWith(items, k) >= 0 && Index(items)[k] == items[LastWith(items, k)]
    decreases |items|
  {
    if items != [] {
      var n := |items| - 1;
      var init := items[..n];
      IndexValues(init);
      forall k | k in Index(items)
        ensures LastWith(items, k) >= 0 && Index(items)[k] == items[LastWith(items, k)]
      {
        if k != items[n].id {
          assert items[LastWith(init, k)] == init[LastWith(init, k)];
        }
      }
    }
  }

  /** `get_company`: the indexed evaluation, or status 404. */
  function GetCompany(index: map<string, Evaluation>, companyId: string): (r: Result<Evaluation, int>)
    ensures r.Ok? <==> companyId in index
    ensures r.Ok? ==> r.value == index[companyId]
    ensures r.Err? ==> r.error == 404
  {
    if companyId in index then Ok(index[companyId]) else Err(404)
  }

  /** A lookup finds exactly the ids some evaluation carries, and what it finds is
      the last evaluation with that id. */
  lemma GetCompanyFinds(items: seq<Evaluation>, companyId: string)
    ensures GetCompany(Index(items), companyId).Ok? <==> exists i :: 0 <= i < |items| && items[i].id == companyId
    ensures GetCompany(Index(items), companyId).Ok? ==>
      var i := LastWith(items, companyId);
      i >= 0 && GetCompany(Index(items), companyId).value == items[i]
  {
    IndexKeys(items);
    IndexValues(items);
  }

  /** The module-level load: a load that raises leaves the service with no
      companies at all. */
  function Startup(rows: seq<Row>): seq<Evaluation>
  {
    match LoadAll(rows)
    case Ok(items) => items
    case Err(_) => []
  }

  /** The service starts with no companies exactly when the file has no rows or
      one row fails to load; otherwise with one evaluation per row. */
  lemma StartupEmpty(rows: seq<Row>)
    ensures Startup(rows) == [] <==> rows == [] || exists i :: 0 <= i < |rows| && LoadRow(rows[i]).Err?
    ensures Startup(rows) != [] ==> |Startup(rows)| == |rows|
  {
    LoadAllRows(rows);
  }

  // ------------------------------------------------------------- the listing

  /** The query parameters of `/companies`. */
  datatype Query = Query(
    q: Option<string>,
    country: Option<string>,
    sector: Option<string>,
    category: Option<int>,
    page: int,
    pageSize: int)

  /** The bounds the web framework enforces on the parameters. */
  predicate ValidQuery(query: Query)
  {
    && (query.category.None? || 1 <= query.category.value <= 4)
    && query.page >= 1
    && 1 <= query.pageSize <= 200
  }

  /** `if q:` and friends: a parameter is used when it is given and not empty. */
  predicate Given(p: Option<string>) { p.Some? && p.value != "" }

  predicate MatchesText(c: Evaluation, q: string)
  {
    var ql := Lower(q);
    Contains(Lower(c.name), ql) || Contains(Lower(c.concerns), ql) || Contains(Lower(c.rationale), ql)
  }

  /** One evaluation against all parameters: each one given must match. */
  predicate MatchesQuery(query: Query, c: Evaluation)
  {
    && (Given(query.q) ==> MatchesText(c, query.q.value))
    && (Given(query.country) ==> Lower(c.country) == Lower(query.country.value))
    && (Given(query.sector) ==> Lower(c.sector) == Lower(query.sector.value))
    && (query.category.Some? ==> c.category == query.category.value)
  }

  /** The four list comprehensions, one after the other. */
  function FilterAllOf(items: seq<Evaluation>, query: Query): seq<Evaluation>
  {
    var s1 := if Given(query.q) then Filter(items, (c: Evaluation) => MatchesText(c, query.q.value)) else items;
    var s2 := if Given(query.country) then Filter(s1, (c: Evaluation) => Lower(c.country) == Lower(query.country.value)) else s1;
    var s3 := if Given(query.sector) then Filter(s2, (c: Evaluation) => Lower(c.sector) == Lower(query.sector.value)) else s2;
    if query.category.Some? then Filter(s3, (c: Evaluation) => c.category == query.category.value) else s3
  }

  /** The sort key `(-c.category, c.name.lower())`, compared as a tuple. */
  predicate KeyLe(a: Evaluation, b: Evaluation)
  {
    -a.category < -b.category || (-a.category == -b.category && LexLe(Lower(a.name), Lower(b.name)))
  }

  function ByKey(): (Evaluation, Evaluation) -> bool
  {
    (a: Evaluation, b: Evaluation) => KeyLe(a, b)
  }

  datatype PagedCompanies = PagedCompanies(items: seq<Evaluation>, page: int, pageSize: int, total: int)

  /** The filtered list before paging, sorted by the key. */
  function Listed(companies: seq<Evaluation>, query: Query): seq<Evaluation>
  {
    Sort(FilterAllOf(companies, query), ByKey())
  }

  /** `(page - 1) * page_size`, the first position on the page. */
  function PageStart(query: Query): nat
    requires ValidQuery(query)
  {
    (query.page - 1) * query.pageSize
  }

  /** `list_companies` over the loaded evaluations. */
  function ListCompanies(companies: seq<Evaluation>, query: Query): PagedCompanies
    requires ValidQuery(query)
  {
    var sorted := Listed(companies, query);
    var start := PageStart(query);
    PagedCompanies(Slice(sorted, start, start + query.pageSize), query.page, query.pageSize, |sorted|)
  }

  /** The comprehensions keep exactly the evaluations that match every parameter. */
  lemma FilterAllOfMembers(items: seq<Evaluation>, query: Query)
    ensures forall c :: c in FilterAllOf(items, query) <==> c in items && MatchesQuery(query, c)
  {
    var s1 := if Given(query.q) then Filter(items, (c: Evaluation) => MatchesText(c, query.q.value)) else items;
    var s2 := if Given(query.country) then Filter(s1, (c: Evaluation) => Lower(c.country) == Lower(query.country.value)) else s1;
    var s3 := if Given(query.sector) then Filter(s2, (c: Evaluation) => Lower(c.sector) == Lower(query.sector.value)) else s2;
    if Given(query.q) { FilterMembers(items, (c: Evaluation) => MatchesText(c, query.q.value)); }
    if Given(query.country) { FilterMembers(s1, (c: Evaluation) => Lower(c.country) == Lower(query.country.value)); }
    if Given(query.sector) { FilterMembers(s2, (c: Evaluation) => Lower(c.sector) == Lower(query.sector.value)); }
    if query.category.Some? { FilterMembers(s3, (c: Evaluation) => c.category == query.category.value); }
  }

  /** The listing holds the matching evaluations, each as often as in the data. */
  lemma ListedIsPermutation(companies: seq<Evaluation>, query: Query)
    ensures multiset(Listed(companies, query)) == multiset(FilterAllOf(companies, query))
    ensures forall c :: c in Listed(companies, query) <==> c in companies && MatchesQuery(query, c)
  {
    SortPermutation(FilterAllOf(companies, query), ByKey());
    SortMembers(FilterAllOf(companies, query), ByKey());
    FilterAllOfMembers(companies, query);
  }

  /** Without parameters nothing is filtered out. */
  lemma NoParametersListAll(companies: seq<Evaluation>, page: int, pageSize: int)
    ensures multiset(Listed(companies, Query(None, None, None, None, page, pageSize))) == multiset(companies)
  {
    SortPermutation(companies, ByKey());
  }

  /** The tuple order is a total preorder on any list. */
  lemma KeyOrderIsPreorder(s: seq<Evaluation>)
    ensures TotalPreorderOn(ByKey(), s)
  {
    forall a, b | a in s && b in s
      ensures ByKey()(a, b) || ByKey()(b, a)
    {
      LexLeTotal(Lower(a.name), Lower(b.name));
    }
    forall a, b, c | a in s && b in s && c in s && ByKey()(a, b) && ByKey()(b, c)
      ensures ByKey()(a, c)
    {
      if a.category == b.category == c.category {
        LexLeTransitive(Lower(a.name), Lower(b.name), Lower(c.name));
      }
    }
  }

  /** `sorted` is stable: evaluations with the same category and the same
      lower-cased name as e keep the order they have in the data. */
  lemma ListedStable(companies: seq<Evaluation>, query: Query, e: Evaluation)
    ensures var same := (c: Evaluation) => c.category == e.category && Lower(c.name) == Lower(e.name);
      Filter(Listed(companies, query), same) == Filter(FilterAllOf(companies, query), same)
  {
    var same := (c: Evaluation) => c.category == e.category && Lower(c.name) == Lower(e.name);
    var kept := FilterAllOf(companies, query);
    KeyOrderIsPreorder([e] + kept);
    forall y
      ensures same(y) == Equivalent(ByKey(), y, e)
    {
      if Equivalent(ByKey(), y, e) && y.category == e.category {
        LexLeAntisymmetric(Lower(y.name), Lower(e.name));
      }
      if same(y) {
        LexLeTotal(Lower(e.name), Lower(e.name));
      }
    }
    SortStable(kept, ByKey(), same, e);
  }

  /** Higher categories first; within a category, lower-cased names in code point
      order. */
  lemma ListedOrdered(companies: seq<Evaluation>, query: Query)
    ensures var r := Listed(companies, query);
      forall i, j :: 0 <= i < j < |r| ==>
        r[i].category > r[j].category
        || (r[i].category == r[j].category && LexLe(Lower(r[i].name), Lower(r[j].name)))
  {
    var kept := FilterAllOf(companies, query);
    KeyOrderIsPreorder(kept);
    SortSorted(kept, ByKey());
    var r := Listed(companies, query);
    forall i, j | 0 <= i < j < |r|
      ensures r[i].category > r[j].category
        || (r[i].category == r[j].category && LexLe(Lower(r[i].name), Lower(r[j].name)))
    {
      assert ByKey()(r[i], r[j]);
    }
  }

  /** `total` counts every match; the page holds positions
      [(page - 1) * size, page * size) of the listing, at most size of them, and a
      page past the end is empty. */
  lemma ListPage(companies: seq<Evaluation>, query: Query)
    requires ValidQuery(query)
    ensures var r := Listed(companies, query);
      var res := ListCompanies(companies, query);
      var start := PageStart(query);
      && res.total == |r| == |FilterAllOf(companies, query)|
      && res.page == query.page && res.pageSize == query.pageSize
      && (start < |r| ==> res.items == r[start..Min(start + query.pageSize, |r|)])
      && (start >= |r| ==> res.items == [])
      && |res.items| <= query.pageSize
  {
    var start := PageStart(query);
    SliceNonNegative(Listed(companies, query), start, start + query.pageSize);
    SortPermutation(FilterAllOf(companies, query), ByKey());
    assert |Listed(companies, query)| == |FilterAllOf(companies, query)| by {
      assert |multiset(Listed(companies, query))| == |multiset(FilterAllOf(companies, query))|;
    }
  }

  // ------------------------------------------------------------------ stats

  datatype Summary = Summary(
    total: nat,
    byCategory: map<int, int>,
    byCountry: map<string, int>,
    bySector: map<string, int>)

  function CategoryOf(c: Evaluation): Option<int> { Some(c.category) }

  function CountryOf(c: Evaluation): Option<string> { Some(c.country) }

  function SectorOf(c: Evaluation): Option<string> { Some(c.sector) }

  /** `stats`: one loop counting every evaluation per category, country and sector. */
  method Stats(companies: seq<Evaluation>) returns (s: Summary)
    ensures s == Summary(|companies|, CountBy(companies, CategoryOf),
                         CountBy(companies, CountryOf), CountBy(companies, SectorOf))
  {
    var byCategory: map<int, int> := map[];
    var byCountry: map<string, int> := map[];
    var bySector: map<string, int> := map[];
    var i := 0;
    while i < |companies|
      invariant 0 <= i <= |companies|
      invariant byCategory == CountBy(companies[..i], CategoryOf)
      invariant byCountry == CountBy(companies[..i], CountryOf)
      invariant bySector == CountBy(companies[..i], SectorOf)
    {
      var c := companies[i];
      assert companies[..i + 1] == companies[..i] + [c];
      CountByStep(companies[..i], c, CategoryOf);
      CountByStep(companies[..i], c, CountryOf);
      CountByStep(companies[..i], c, SectorOf);
      byCategory := Tally(byCategory, c.category);
      byCountry := Tally(byCountry, c.country);
      bySector := Tally(bySector, c.sector);
      i := i + 1;
    }
    assert companies[..i] == companies;
    s := Summary(|companies|, byCategory, byCountry, bySector);
  }

  /** Every evaluation is counted once in each map, so each adds up to the total. */
  lemma SummaryAddsUp(companies: seq<Evaluation>)
    ensures Sum(CountBy(companies, CategoryOf)) == |companies|
    ensures Sum(CountBy(companies, CountryOf)) == |companies|
    ensures Sum(CountBy(companies, SectorOf)) == |companies|
  {
    CountBySum(companies, CategoryOf);
    CountKeyedAll(companies, CategoryOf);
    CountBySum(companies, CountryOf);
    CountKeyedAll(companies, CountryOf);
    CountBySum(companies, SectorOf);
    CountKeyedAll(companies, SectorOf);
  }
}
