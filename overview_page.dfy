/** The older overview page, which computes its statistics itself: one pass that
    counts holdings per category, country and sector and sums market values per
    sector and country, a top-ten list of `{ name, value }` pairs, and its own
    copies of the bar, value-bar and category-donut charts. */
module OverviewPage {
  import opened Wrappers
  import opened Seqs
  import opened StableSort
  import opened Tallies
  import opened Numbers
  import opened Types
  import opened ChartEntries
  import OverviewStats
  import ValueBars
  import CategoryDonut

  datatype PageStats = PageStats(
    total: nat,
    byCategory: map<string, int>,
    byCountry: map<string, int>,
    bySector: map<string, int>,
    topInvestments: seq<Entry>,
    valueBySector: map<string, real>,
    valueByCountry: map<string, real>)

  /** `c.shallowReport?.riskAssessment?.category` when truthy: the deep report and
      the normalised category are not consulted, and an empty string is skipped. */
  function ShallowCategory(c: Company): Option<string>
  {
    if c.shallowReport.Some? && c.shallowReport.value.riskAssessment.Some?
       && c.shallowReport.value.riskAssessment.value.category.Some?
       && c.shallowReport.value.riskAssessment.value.category.value != ""
    then c.shallowReport.value.riskAssessment.value.category
    else None
  }

  /** `{ name: c.name, value: c.marketValueNok || 0 }` */
  function TopEntry(c: Company): Entry
  {
    Entry(c.name, c.marketValueNok)
  }

  /** The ten largest holdings as chart entries. */
  function TopEntries(companies: seq<Company>): (top: seq<Entry>)
    ensures |top| == |OverviewStats.TopInvestments(companies)|
    ensures forall i :: 0 <= i < |top| ==> top[i] == TopEntry(OverviewStats.TopInvestments(companies)[i])
  {
    var cs := OverviewStats.TopInvestments(companies);
    seq(|cs|, i requires 0 <= i < |cs| => TopEntry(cs[i]))
  }

  /** The statistics of a non-empty list of holdings. */
  function PageStatsOf(companies: seq<Company>): PageStats
  {
    PageStats(
      total := |companies|,
      byCategory := CountBy(companies, ShallowCategory),
      byCountry := CountBy(companies, OverviewStats.CountryKey),
      bySector := CountBy(companies, OverviewStats.SectorKey),
      topInvestments := TopEntries(companies),
      valueBySector := SumBy(companies, OverviewStats.ValuedSector, OverviewStats.MarketValue),
      valueByCountry := SumBy(companies, OverviewStats.ValuedCountry, OverviewStats.MarketValue))
  }

  /** The effect body: an empty list leaves the state as it is (null at first), a
      non-empty one replaces it by the statistics. */
  method ComputeStats(companies: seq<Company>, previous: Option<PageStats>) returns (stats: Option<PageStats>)
    ensures companies == [] ==> stats == previous
    ensures companies != [] ==> stats == Some(PageStatsOf(companies))
  {
    if |companies| == 0 {
      return previous;
    }
    var byCategory: map<string, int> := map[];
    var byCountry: map<string, int> := map[];
    var bySector: map<string, int> := map[];
    var valueBySector: map<string, real> := map[];
    var valueByCountry: map<string, real> := map[];
    var i := 0;
    while i < |companies|
      invariant 0 <= i <= |companies|
      invariant byCategory == CountBy(companies[..i], ShallowCategory)
      invariant byCountry == CountBy(companies[..i], OverviewStats.CountryKey)
      invariant bySector == CountBy(companies[..i], OverviewStats.SectorKey)
      invariant valueBySector == SumBy(companies[..i], OverviewStats.ValuedSector, OverviewStats.MarketValue)
      invariant valueByCountry == SumBy(companies[..i], OverviewStats.ValuedCountry, OverviewStats.MarketValue)
    {
      var c := companies[i];
      assert companies[..i + 1] == companies[..i] + [c];
      CountByStep(companies[..i], c, ShallowCategory);
      CountByStep(companies[..i], c, OverviewStats.CountryKey);
      CountByStep(companies[..i], c, OverviewStats.SectorKey);
      SumByStep(companies[..i], c, OverviewStats.ValuedSector, OverviewStats.MarketValue);
      SumByStep(companies[..i], c, OverviewStats.ValuedCountry, OverviewStats.MarketValue);
      match ShallowCategory(c) {
        case Some(category) => byCategory := Tally(byCategory, category);
        case None =>
      }
      byCountry := Tally(byCountry, c.country);
      bySector := Tally(bySector, c.sector);
      if c.marketValueNok != 0.0 {
        valueBySector := AddTo(valueBySector, c.sector, c.marketValueNok);
        valueByCountry := AddTo(valueByCountry, c.country, c.marketValueNok);
      }
      i := i + 1;
    }
    assert companies[..i] == companies;
    var top := TopEntries(companies);
    stats := Some(PageStats(|companies|, byCategory, byCountry, bySector, top, valueBySector, valueByCountry));
  }

  /** Every holding is counted once per country and once per sector. */
  lemma PageCountsAddUp(companies: seq<Company>)
    ensures Sum(PageStatsOf(companies).byCountry) == |companies|
    ensures Sum(PageStatsOf(companies).bySector) == |companies|
  {
    CountBySum(companies, OverviewStats.CountryKey);
    CountKeyedAll(companies, OverviewStats.CountryKey);
    CountBySum(companies, OverviewStats.SectorKey);
    CountKeyedAll(companies, OverviewStats.SectorKey);
  }

  /** A holding is counted under k exactly when its shallow report has a risk
      assessment whose category is the non-empty text k. */
  lemma ShallowCategoryMeaning(c: Company, k: string)
    ensures ShallowCategory(c) == Some(k) <==>
      && k != ""
      && c.shallowReport.Some? && c.shallowReport.value.riskAssessment.Some?
      && c.shallowReport.value.riskAssessment.value.category == Some(k)
  {
  }

  /** The category counts are keyed by the shallow report's non-empty category
      text, add up to the number of holdings that have one, and are positive. */
  lemma ShallowCategoryCounts(companies: seq<Company>)
    ensures Sum(PageStatsOf(companies).byCategory) == CountKeyed(companies, ShallowCategory) <= |companies|
    ensures forall k :: k in PageStatsOf(companies).byCategory <==>
      exists i :: 0 <= i < |companies| && ShallowCategory(companies[i]) == Some(k)
    ensures forall k :: k in PageStatsOf(companies).byCategory ==> PageStatsOf(companies).byCategory[k] >= 1
  {
    CountBySum(companies, ShallowCategory);
    CountByKeys(companies, ShallowCategory);
  }

  /** Two lists that differ only outside the shallow reports (deep reports, the
      normalised category, anything else) have the same category counts. */
  lemma DeepReportIgnored(a: seq<Company>, b: seq<Company>)
    requires |a| == |b|
    requires forall i :: 0 <= i < |a| ==> a[i].shallowReport == b[i].shallowReport
    ensures PageStatsOf(a).byCategory == PageStatsOf(b).byCategory
  {
    CountBySameKeys(a, b, ShallowCategory);
  }

  /** The value per sector and the value per country both add up to the sum of all
      market values: a zero value enters no map and adds nothing either. */
  lemma PageValueTotals(companies: seq<Company>)
    ensures RealSum(PageStatsOf(companies).valueBySector) == SumReals(OverviewStats.MarketValues(companies))
    ensures RealSum(PageStatsOf(companies).valueByCountry) == SumReals(OverviewStats.MarketValues(companies))
  {
    OverviewStats.ValueTotalsAgree(companies);
    OverviewStats.TotalValueIsSum(companies);
  }

  /** The top list holds min(10, n) pairs, each the name and value of the holding
      at that place in the descending sort; values do not increase, and no holding
      left out is worth more than one listed. */
  lemma TopEntriesRanked(companies: seq<Company>)
    ensures var top := PageStatsOf(companies).topInvestments;
      var r := Sort(companies, DescBy(OverviewStats.MarketValue));
      && |top| == Min(OverviewStats.TopCount, |companies|)
      && (forall i :: 0 <= i < |top| ==> top[i] == Entry(r[i].name, r[i].marketValueNok))
      && (forall i, j :: 0 <= i < j < |top| ==> top[i].value >= top[j].value)
      && (forall i, j :: 0 <= i < |top| <= j < |r| ==> top[i].value >= r[j].marketValueNok)
  {
    TopN(companies, OverviewStats.MarketValue, OverviewStats.TopCount);
  }

  /** The top-investments chart is drawn without `max`, from an array: it shows the
      ten pairs as they are. */
  lemma TopChartAsGiven(companies: seq<Company>)
    ensures ValueBars.Chart(ValueBars.ArrayData(PageStatsOf(companies).topInvestments), None)
      == PageStatsOf(companies).topInvestments
  {
    var top := PageStatsOf(companies).topInvestments;
    ValueBars.ArrayKeepsOrder(top, None);
    TopN(companies, OverviewStats.MarketValue, OverviewStats.TopCount);
    assert top[..Min(Limit(None), |top|)] == top;
  }

  /** This page's bar chart: like the component, but names are not shortened. */
  function PageBars(data: map<string, int>, keys: seq<string>, max: Option<int>): seq<Entry>
    requires KeysIn(keys, data)
  {
    Ranked(Entries(AsReals(data), keys), max)
  }

  /** min(max, number of keys) bars, largest count first, each a key of the
      dictionary with its own count under its own name, and no count left out is
      larger than one shown. */
  lemma PageBarsRanked(data: map<string, int>, keys: seq<string>, max: Option<int>)
    requires Enumerates(keys, data)
    requires max.None? || max.value >= 0
    ensures var sorted := ByValueDesc(Entries(AsReals(data), keys));
      var bars := PageBars(data, keys, max);
      && |bars| == Min(Limit(max), |keys|)
      && (forall i :: 0 <= i < |bars| ==> bars[i].name in data && bars[i].value == data[bars[i].name] as real)
      && (forall i, j :: 0 <= i < j < |bars| ==> bars[i].value >= bars[j].value)
      && (forall i, j :: 0 <= i < |bars| <= j < |sorted| ==> bars[i].value >= sorted[j].value)
  {
    var es := Entries(AsReals(data), keys);
    RankedTop(es, max);
    ByValueDescMembers(es);
    var bars := PageBars(data, keys, max);
    forall i | 0 <= i < |bars|
      ensures bars[i].name in data && bars[i].value == data[bars[i].name] as real
    {
      assert bars[i] in ByValueDesc(es);
      var j :| 0 <= j < |es| && es[j] == bars[i];
    }
  }

  // The category donut of this page: only "undefined" is left out, and the
  // label keys and colours differ from the component's.

  /** The key left out of this page's ring. */
  const DonutHidden: set<string> := {"undefined"}

  /** The grey of a key outside the mapping (slate-500). */
  const Grey: string := "#64748b"

  function DonutMapping(k: string): Option<(string, string)>
  {
    if k == "1" then Some(("exclude", "#b91c1c"))
    else if k == "2" then Some(("observe", "#ea580c"))
    else if k == "3" then Some(("monitor", "#facc15"))
    else if k == "4" then Some(("ok", "#16a34a"))
    else if k == "undefined" then Some(("undefined", "#64748b"))
    else None
  }

  function ToSegment(e: Entry): (w: CategoryDonut.Wedge)
    ensures w.name == e.name && w.value == e.value
  {
    var m := DonutMapping(e.name);
    CategoryDonut.Wedge(e.name, e.value,
      if m.Some? then m.value.0 else e.name,
      if m.Some? then m.value.1 else Grey)
  }

  /** Every category key gets its label key and colour; a key outside the mapping
      is its own label and is grey. */
  lemma SegmentLabels(e: Entry)
    ensures e.name == "1" ==> ToSegment(e).labelKey == "exclude" && ToSegment(e).color == "#b91c1c"
    ensures e.name == "2" ==> ToSegment(e).labelKey == "observe" && ToSegment(e).color == "#ea580c"
    ensures e.name == "3" ==> ToSegment(e).labelKey == "monitor" && ToSegment(e).color == "#facc15"
    ensures e.name == "4" ==> ToSegment(e).labelKey == "ok" && ToSegment(e).color == "#16a34a"
    ensures e.name !in {"1", "2", "3", "4", "undefined"} ==>
      ToSegment(e).labelKey == e.name && ToSegment(e).color == Grey
  {
  }

  function Segments(es: seq<Entry>): (ws: seq<CategoryDonut.Wedge>)
    ensures |ws| == |es|
    ensures forall i :: 0 <= i < |es| ==> ws[i] == ToSegment(es[i])
  {
    seq(|es|, i requires 0 <= i < |es| => ToSegment(es[i]))
  }

  /** The ring's segments: every key but "undefined", in ascending numeric order. */
  function DonutData(data: map<string, int>, keys: seq<string>): seq<CategoryDonut.Wedge>
    requires KeysIn(keys, data)
  {
    Segments(ByNumericKey(data, keys, DonutHidden))
  }

  /** One segment per key other than "undefined", with that key's count. */
  lemma DonutKeys(data: map<string, int>, keys: seq<string>)
    requires Enumerates(keys, data)
    ensures forall w :: w in DonutData(data, keys) ==>
      w.name in data && w.name != "undefined" && w.value == data[w.name] as real
    ensures forall k :: k in data && k != "undefined" ==>
      exists i :: 0 <= i < |DonutData(data, keys)| && DonutData(data, keys)[i].name == k
  {
    var es := ByNumericKey(data, keys, DonutHidden);
    ByNumericKeyMembers(data, keys, DonutHidden);
    forall w | w in DonutData(data, keys)
      ensures w.name in data && w.name != "undefined" && w.value == data[w.name] as real
    {
      var i :| 0 <= i < |es| && Segments(es)[i] == w;
      assert es[i] in es;
    }
    forall k | k in data && k != "undefined"
      ensures exists i :: 0 <= i < |DonutData(data, keys)| && DonutData(data, keys)[i].name == k
    {
      var e := Entry(k, data[k] as real);
      assert e in es;
      var i :| 0 <= i < |es| && es[i] == e;
      assert DonutData(data, keys)[i].name == k;
    }
  }

  /** With numeric keys, the segments are in ascending key order. */
  lemma DonutOrdered(data: map<string, int>, keys: seq<string>)
    requires Enumerates(keys, data)
    requires forall k :: k in data && k != "undefined" ==> NumberOf(k).Some?
    ensures NumericAscending(CategoryDonut.SegmentNames(DonutData(data, keys)))
  {
    var es := ByNumericKey(data, keys, DonutHidden);
    ByNumericKeyOrdered(data, keys, DonutHidden);
    assert CategoryDonut.SegmentNames(Segments(es)) == Names(es);
  }

  lemma {:induction false} SegmentsTotal(es: seq<Entry>)
    ensures CategoryDonut.WedgeTotal(Segments(es)) == Total(es)
    decreases |es|
  {
    if es != [] {
      SegmentsTotal(es[1..]);
      assert Segments(es)[1..] == Segments(es[1..]);
    }
  }

  /** The total in the middle is the count of all holdings minus the "undefined"
      bucket. */
  lemma DonutTotal(data: map<string, int>, keys: seq<string>)
    requires Enumerates(keys, data)
    ensures CategoryDonut.WedgeTotal(DonutData(data, keys))
      == Sum(data) as real - (if "undefined" in data then data["undefined"] as real else 0.0)
  {
    SegmentsTotal(ByNumericKey(data, keys, DonutHidden));
    ByNumericKeyTotal(data, keys, DonutHidden);
    AsRealsSum(data);
    WithoutKey(AsReals(data), "undefined");
  }
}
