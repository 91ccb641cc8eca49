/** The overview statistics hook: one pass over the holdings that counts them per
    category, country and sector, sums their market values per sector and country
    (separately for the high-risk categories 1 and 2), and picks the ten largest. */
module OverviewStats {
  import opened Wrappers
  import opened Seqs
  import opened Text
  import opened StableSort
  import opened Tallies
  import opened Types

  datatype Stats = Stats(
    total: nat,
    totalValue: real,
    byCategory: map<string, int>,
    byCountry: map<string, int>,
    bySector: map<string, int>,
    topInvestments: seq<Company>,
    valueBySector: map<string, real>,
    valueByCountry: map<string, real>,
    highRiskValueBySector: map<string, real>,
    highRiskValueByCountry: map<string, real>)

  /** How many holdings the top list keeps. */
  const TopCount: nat := 10

  /** `c.category?.toString()` when truthy: undefined has no key, NaN has the key
      "NaN", and every integer (0 included) has its decimal text. */
  function CategoryKey(c: Company): Option<string>
  {
    match c.category
    case NoCategory => None
    case NotANumber => Some("NaN")
    case Category(n) => Some(IntToString(n))
  }

  function CountryKey(c: Company): Option<string> { Some(c.country) }

  function SectorKey(c: Company): Option<string> { Some(c.sector) }

  function MarketValue(c: Company): real { c.marketValueNok }

  /** `if (c.marketValueNok)`: a zero market value contributes to no value total. */
  predicate HasValue(c: Company) { c.marketValueNok != 0.0 }

  /** `c.category === 1 || c.category === 2` */
  predicate IsHighRisk(c: Company) { c.category == Category(1) || c.category == Category(2) }

  function ValuedSector(c: Company): Option<string>
  {
    if HasValue(c) then Some(c.sector) else None
  }

  function ValuedCountry(c: Company): Option<string>
  {
    if HasValue(c) then Some(c.country) else None
  }

  function HighRiskSector(c: Company): Option<string>
  {
    if HasValue(c) && IsHighRisk(c) then Some(c.sector) else None
  }

  function HighRiskCountry(c: Company): Option<string>
  {
    if HasValue(c) && IsHighRisk(c) then Some(c.country) else None
  }

  /** A copy sorted by descending market value, cut to the first ten. */
  function TopInvestments(companies: seq<Company>): seq<Company>
  {
    Slice(Sort(companies, DescBy(MarketValue)), 0, TopCount)
  }

  /** The statistics of a non-empty list of holdings. */
  function StatsOf(companies: seq<Company>): Stats
  {
    Stats(
      total := |companies|,
      totalValue := KeyedTotal(companies, ValuedSector, MarketValue),
      byCategory := CountBy(companies, CategoryKey),
      byCountry := CountBy(companies, CountryKey),
      bySector := CountBy(companies, SectorKey),
      topInvestments := TopInvestments(companies),
      valueBySector := SumBy(companies, ValuedSector, MarketValue),
      valueByCountry := SumBy(companies, ValuedCountry, MarketValue),
      highRiskValueBySector := SumBy(companies, HighRiskSector, MarketValue),
      highRiskValueByCountry := SumBy(companies, HighRiskCountry, MarketValue))
  }

  /** The effect body. The hook's state is `previous`; an empty list leaves it as
      it is (null at first), a non-empty one replaces it by the statistics. */
  method ComputeStats(companies: seq<Company>, previous: Option<Stats>) returns (stats: Option<Stats>)
    ensures companies == [] ==> stats == previous
    ensures companies != [] ==> stats == Some(StatsOf(companies))
  {
    if |companies| == 0 {
      return previous;
    }
    var byCategory: map<string, int> := map[];
    var byCountry: map<string, int> := map[];
    var bySector: map<string, int> := map[];
    var valueBySector: map<string, real> := map[];
    var valueByCountry: map<string, real> := map[];
    var highRiskValueBySector: map<string, real> := map[];
    var highRiskValueByCountry: map<string, real> := map[];
    var totalValue := 0.0;
    var i := 0;
    while i < |companies|
      invariant 0 <= i <= |companies|
      invariant byCategory == CountBy(companies[..i], CategoryKey)
      invariant byCountry == CountBy(companies[..i], CountryKey)
      invariant bySector == CountBy(companies[..i], SectorKey)
      invariant totalValue == KeyedTotal(companies[..i], ValuedSector, MarketValue)
      invariant valueBySector == SumBy(companies[..i], ValuedSector, MarketValue)
      invariant valueByCountry == SumBy(companies[..i], ValuedCountry, MarketValue)
      invariant highRiskValueBySector == SumBy(companies[..i], HighRiskSector, MarketValue)
      invariant highRiskValueByCountry == SumBy(companies[..i], HighRiskCountry, MarketValue)
    {
      var c := companies[i];
      CountByPrefixStep(companies, i, CategoryKey);
      CountByPrefixStep(companies, i, CountryKey);
      CountByPrefixStep(companies, i, SectorKey);
      KeyedTotalPrefixStep(companies, i, ValuedSector, MarketValue);
      SumByPrefixStep(companies, i, ValuedSector, MarketValue);
      SumByPrefixStep(companies, i, ValuedCountry, MarketValue);
      SumByPrefixStep(companies, i, HighRiskSector, MarketValue);
      SumByPrefixStep(companies, i, HighRiskCountry, MarketValue);
      match CategoryKey(c) {
        case Some(category) => byCategory := Tally(byCategory, category);
        case None =>
      }
      byCountry := Tally(byCountry, c.country);
      bySector := Tally(bySector, c.sector);
      if c.marketValueNok != 0.0 {
        totalValue := totalValue + c.marketValueNok;
        valueBySector := AddTo(valueBySector, c.sector, c.marketValueNok);
        valueByCountry := AddTo(valueByCountry, c.country, c.marketValueNok);
        if c.category == Category(1) || c.category == Category(2) {
          highRiskValueBySector := AddTo(highRiskValueBySector, c.sector, c.marketValueNok);
          highRiskValueByCountry := AddTo(highRiskValueByCountry, c.country, c.marketValueNok);
        }
      }
      i := i + 1;
    }
    assert companies[..i] == companies;
    var top := TopInvestments(companies);
    stats := Some(Stats(|companies|, totalValue, byCategory, byCountry, bySector, top,
                        valueBySector, valueByCountry, highRiskValueBySector, highRiskValueByCountry));
  }

  /** Every holding is counted once per country and once per sector. */
  lemma CountsAddUp(companies: seq<Company>)
    ensures Sum(StatsOf(companies).byCountry) == |companies|
    ensures Sum(StatsOf(companies).bySector) == |companies|
  {
    CountBySum(companies, CountryKey);
    CountKeyedAll(companies, CountryKey);
    CountBySum(companies, SectorKey);
    CountKeyedAll(companies, SectorKey);
  }

  /** The category counts cover exactly the holdings with a defined category, so
      they add up to at most the total; every listed category has a positive count. */
  lemma CategoryCounts(companies: seq<Company>)
    ensures Sum(StatsOf(companies).byCategory) == CountKeyed(companies, CategoryKey) <= |companies|
    ensures forall k :: k in StatsOf(companies).byCategory <==>
      exists i :: 0 <= i < |companies| && CategoryKey(companies[i]) == Some(k)
    ensures forall k :: k in StatsOf(companies).byCategory ==> StatsOf(companies).byCategory[k] >= 1
  {
    CountBySum(companies, CategoryKey);
    CountByKeys(companies, CategoryKey);
  }

  /** The value totals per sector and per country both add up to the total value. */
  lemma ValueTotalsAgree(companies: seq<Company>)
    ensures RealSum(StatsOf(companies).valueBySector) == StatsOf(companies).totalValue
    ensures RealSum(StatsOf(companies).valueByCountry) == StatsOf(companies).totalValue
  {
    SumBySum(companies, ValuedSector, MarketValue);
    SumBySum(companies, ValuedCountry, MarketValue);
    KeyedTotalSameDomain(companies, ValuedSector, ValuedCountry, MarketValue);
  }

  /** The market values of a list of holdings, in order. */
  function MarketValues(companies: seq<Company>): (r: seq<real>)
    ensures |r| == |companies|
    ensures forall i :: 0 <= i < |companies| ==> r[i] == companies[i].marketValueNok
  {
    seq(|companies|, i requires 0 <= i < |companies| => companies[i].marketValueNok)
  }

  /** Skipping zero values does not change the total: it is the sum of every
      holding's market value. */
  lemma {:induction false} TotalValueIsSum(companies: seq<Company>)
    ensures StatsOf(companies).totalValue == SumReals(MarketValues(companies))
    decreases |companies|
  {
    if companies != [] {
      var init := companies[..|companies| - 1];
      var last := companies[|companies| - 1];
      TotalValueIsSum(init);
      assert MarketValues(companies) == MarketValues(init) + [last.marketValueNok];
      SumRealsConcat(MarketValues(init), [last.marketValueNok]);
    }
  }

  /** A sector or country appears in a value map only when some holding there has
      a non-zero market value. */
  lemma ValueKeys(companies: seq<Company>)
    ensures forall k :: k in StatsOf(companies).valueBySector <==>
      exists i :: 0 <= i < |companies| && HasValue(companies[i]) && companies[i].sector == k
    ensures forall k :: k in StatsOf(companies).valueByCountry <==>
      exists i :: 0 <= i < |companies| && HasValue(companies[i]) && companies[i].country == k
  {
    KeysWhere(companies, ValuedSector, HasValue, Sector);
    KeysWhere(companies, ValuedCountry, HasValue, Country);
  }

  /** A sector or country appears in a high-risk map only when some holding there
      has a non-zero market value and category 1 or 2. */
  lemma HighRiskKeys(companies: seq<Company>)
    ensures forall k :: k in StatsOf(companies).highRiskValueBySector <==>
      exists i :: 0 <= i < |companies| && HasValue(companies[i]) && IsHighRisk(companies[i])
        && companies[i].sector == k
    ensures forall k :: k in StatsOf(companies).highRiskValueByCountry <==>
      exists i :: 0 <= i < |companies| && HasValue(companies[i]) && IsHighRisk(companies[i])
        && companies[i].country == k
  {
    KeysWhere(companies, HighRiskSector, ValuedHighRisk, Sector);
    KeysWhere(companies, HighRiskCountry, ValuedHighRisk, Country);
  }

  function Sector(c: Company): string { c.sector }

  function Country(c: Company): string { c.country }

  predicate ValuedHighRisk(c: Company) { HasValue(c) && IsHighRisk(c) }

  /** The keys of a sum whose key is `field` for the holdings picked by `picked`
      are the fields of the picked holdings. */
  lemma KeysWhere(companies: seq<Company>, key: Company -> Option<string>,
                  picked: Company -> bool, field: Company -> string)
    requires forall i :: 0 <= i < |companies| ==>
      key(companies[i]) == if picked(companies[i]) then Some(field(companies[i])) else None
    ensures forall k :: k in SumBy(companies, key, MarketValue) <==>
      exists i :: 0 <= i < |companies| && picked(companies[i]) && field(companies[i]) == k
  {
    SumByKeys(companies, key, MarketValue);
  }

  /** With non-negative market values, the high-risk value of a sector or country is
      part of its total value: no larger, and only for places that have a total. */
  lemma HighRiskWithinTotal(companies: seq<Company>)
    requires forall i :: 0 <= i < |companies| ==> companies[i].marketValueNok >= 0.0
    ensures StatsOf(companies).highRiskValueBySector.Keys <= StatsOf(companies).valueBySector.Keys
    ensures StatsOf(companies).highRiskValueByCountry.Keys <= StatsOf(companies).valueByCountry.Keys
    ensures forall k :: k in StatsOf(companies).highRiskValueBySector ==>
      StatsOf(companies).highRiskValueBySector[k] <= StatsOf(companies).valueBySector[k]
    ensures forall k :: k in StatsOf(companies).highRiskValueByCountry ==>
      StatsOf(companies).highRiskValueByCountry[k] <= StatsOf(companies).valueByCountry[k]
  {
    SumByDominated(companies, ValuedSector, HighRiskSector, MarketValue);
    SumByDominated(companies, ValuedCountry, HighRiskCountry, MarketValue);
  }

  /** The top list holds the min(10, n) largest holdings, largest first, and the
      holdings left out are no larger than any of them. */
  lemma TopInvestmentsLargest(companies: seq<Company>)
    ensures var top := StatsOf(companies).topInvestments;
      var r := Sort(companies, DescBy(MarketValue));
      && |top| == Min(TopCount, |companies|)
      && multiset(top) + multiset(r[|top|..]) == multiset(companies)
      && (forall i, j :: 0 <= i < j < |top| ==> top[i].marketValueNok >= top[j].marketValueNok)
      && (forall i, j :: 0 <= i < |top| <= j < |r| ==> top[i].marketValueNok >= r[j].marketValueNok)
  {
    TopN(companies, MarketValue, TopCount);
  }

  /** Holdings of equal market value keep their input order in the sorted copy. */
  lemma TopInvestmentsStable(companies: seq<Company>, v: real)
    ensures Filter(Sort(companies, DescBy(MarketValue)), (c: Company) => c.marketValueNok == v)
      == Filter(companies, (c: Company) => c.marketValueNok == v)
  {
    SortDescendingStable(companies, MarketValue, (c: Company) => c.marketValueNok == v, v);
  }
}
