/** The record normaliser of the frontend data context: one raw JSON record
    becomes one `Company`. The fetch around it is not modelled. */
module CompanyDataContext {
  import opened Wrappers
  import opened Text
  import opened Numbers
  import opened Types

  /** A raw record. The three number fields are held as `String(item.x)`, which is
      what the normaliser parses (a missing one is the text "undefined"). */
  datatype RawItem = RawItem(
    id: string,
    name: string,
    country: string,
    industry: string,
    marketValueNok: string,
    ownership: string,
    voting: string,
    incorporationCountry: Option<string>,
    state: Option<string>,
    shallowReport: Option<Report>,
    deepReport: Option<Report>)

  /** 2 for a finished deep report, 1 for a finished shallow report, else 0. */
  function AiReportStatus(item: RawItem): (r: int)
    ensures r == 2 <==> item.state == Some("done_deep") && item.deepReport.Some?
    ensures r == 1 <==> item.state == Some("done_shallow") && item.shallowReport.Some?
    ensures r == 0 || r == 1 || r == 2
  {
    if item.state == Some("done_deep") && item.deepReport.Some? then 2
    else if item.state == Some("done_shallow") && item.shallowReport.Some? then 1
    else 0
  }

  /** `parseInt(x, 10)` as a category value; `parseInt` of undefined or null is NaN. */
  function ParseCategory(text: Option<string>): CategoryValue
  {
    if text.None? then NotANumber
    else
      match ParseInt(text.value)
      case None => NotANumber
      case Some(n) => Category(n)
  }

  function RiskAssessmentOf(report: Option<Report>): Option<RiskAssessment>
  {
    if report.Some? then report.value.riskAssessment else None
  }

  /** The category of a record: the deep report's risk assessment if it has one,
      otherwise the shallow report's, otherwise undefined. */
  function DeriveCategory(shallow: Option<Report>, deep: Option<Report>): (r: CategoryValue)
    ensures r == NoCategory <==> RiskAssessmentOf(deep).None? && RiskAssessmentOf(shallow).None?
    ensures RiskAssessmentOf(deep).Some? ==> r == ParseCategory(RiskAssessmentOf(deep).value.category)
    ensures RiskAssessmentOf(deep).None? && RiskAssessmentOf(shallow).Some? ==>
      r == ParseCategory(RiskAssessmentOf(shallow).value.category)
  {
    var d := RiskAssessmentOf(deep);
    var s := RiskAssessmentOf(shallow);
    if d.Some? then ParseCategory(d.value.category)
    else if s.Some? then ParseCategory(s.value.category)
    else NoCategory
  }

  /** No range check is made: whatever integer the report states is the category. */
  lemma CategoryNotRangeChecked(n: int, shallow: Option<Report>)
    ensures DeriveCategory(shallow, Some(Report(Some(RiskAssessment(Some(IntToString(n)), None, None, None))))) == Category(n)
  {
    ParseIntRoundTrip(n);
  }

  /** The deep report wins even when the shallow one states another category. */
  lemma DeepReportPreferred(a: int, b: int)
    ensures DeriveCategory(Some(Report(Some(RiskAssessment(Some(IntToString(a)), None, None, None)))),
                           Some(Report(Some(RiskAssessment(Some(IntToString(b)), None, None, None))))) == Category(b)
  {
    ParseIntRoundTrip(b);
  }

  /** `parseFloat(String(x).replace(/ /g, '')) || 0`: NaN and 0 both become 0. */
  function ParseMarketValue(text: string): real
  {
    ParseFloat(RemoveChars(text, IsSpace)).GetOr(0.0)
  }

  /** `parseFloat(String(x).replace(',', '.')) || 0`: only the first comma becomes a point. */
  function ParseDecimalComma(text: string): real
  {
    ParseFloat(ReplaceFirstChar(text, ',', '.')).GetOr(0.0)
  }

  /** Spaces are removed before parsing, so digit groups separated by spaces read as one number. */
  lemma MarketValueIgnoresSpaces(text: string)
    ensures ParseMarketValue(text) == ParseMarketValue(RemoveChars(text, IsSpace))
  {
    RemoveCharsIdempotent(text, IsSpace);
  }

  /** The comma is not a decimal separator for the market value: the digits
      before it are the whole value (so "1 234,50" reads as 1234). */
  lemma MarketValueStopsAtComma(whole: string, fraction: string)
    requires whole != [] && AllDigits(whole) && AllDigits(fraction)
    ensures ParseMarketValue(whole + "," + fraction) == DigitsValue(whole) as real
  {
    var rest := "," + fraction;
    var s := whole + rest;
    assert whole + "," + fraction == s;
    NoSpaceInNumber(whole, fraction);
    RemoveCharsNone(s, IsSpace);
    ParseFloatDigitsThenStop(whole, rest);
    assert ParseFloat(RemoveChars(s, IsSpace)) == Some(DigitsValue(whole) as real);
  }

  lemma NoSpaceInNumber(whole: string, fraction: string)
    requires AllDigits(whole) && AllDigits(fraction)
    ensures forall i :: 0 <= i < |whole + "," + fraction| ==> !IsSpace((whole + "," + fraction)[i])
  {
    var s := whole + "," + fraction;
    forall i | 0 <= i < |s|
      ensures !IsSpace(s[i])
    {
      if i < |whole| {
        assert s[i] == whole[i];
      } else if i > |whole| {
        assert s[i] == fraction[i - |whole| - 1];
      }
    }
  }

  /** Only the first comma becomes a decimal point, so "1,234,5" reads as 1.234. */
  lemma DecimalCommaFirstOnly(whole: string, fraction: string, rest: string)
    requires whole != [] && AllDigits(whole) && AllDigits(fraction)
    requires rest != [] ==> rest[0] == ','
    ensures ParseDecimalComma(whole + "," + fraction + rest)
      == (DigitsValue(whole + fraction) as real) / (Pow10(|fraction|) as real)
  {
    var s := whole + "," + fraction + rest;
    assert ',' !in whole;
    ReplaceFirstCharAt(whole, fraction + rest, ',', '.');
    assert s == whole + [','] + (fraction + rest);
    assert whole + ['.'] + (fraction + rest) == whole + "." + fraction + rest;
    ParseFloatDecimalThenStop(whole, fraction, rest);
  }

  /** Fields that pass through, the industry renamed to sector, and the derived fields. */
  function Normalize(item: RawItem): (c: Company)
    ensures c.id == item.id && c.name == item.name && c.country == item.country
    ensures c.sector == item.industry
    ensures c.state == item.state && c.incorporationCountry == item.incorporationCountry
    ensures c.shallowReport == item.shallowReport && c.deepReport == item.deepReport
    ensures c.aiReportStatus == AiReportStatus(item)
    ensures c.category == DeriveCategory(item.shallowReport, item.deepReport)
    ensures c.marketValueNok == ParseMarketValue(item.marketValueNok)
    ensures c.ownership == ParseDecimalComma(item.ownership)
    ensures c.voting == ParseDecimalComma(item.voting)
  {
    Company(
      id := item.id,
      name := item.name,
      country := item.country,
      sector := item.industry,
      marketValueNok := ParseMarketValue(item.marketValueNok),
      ownership := ParseDecimalComma(item.ownership),
      voting := ParseDecimalComma(item.voting),
      incorporationCountry := item.incorporationCountry,
      state := item.state,
      shallowReport := item.shallowReport,
      deepReport := item.deepReport,
      aiReportStatus := AiReportStatus(item),
      category := DeriveCategory(item.shallowReport, item.deepReport))
  }

  /** `data.map(...)`: one company per raw record, in input order. */
  function NormalizeAll(data: seq<RawItem>): (companies: seq<Company>)
    ensures |companies| == |data|
    ensures forall i :: 0 <= i < |data| ==> companies[i] == Normalize(data[i])
  {
    seq(|data|, i requires 0 <= i < |data| => Normalize(data[i]))
  }

  /** Every normalised company has a report status in {0, 1, 2}, and status 2 or 1
      implies that the corresponding report is present. */
  lemma NormalizedStatus(data: seq<RawItem>)
    ensures forall c :: c in NormalizeAll(data) ==>
      (c.aiReportStatus == 0 || c.aiReportStatus == 1 || c.aiReportStatus == 2)
      && (c.aiReportStatus == 2 ==> c.deepReport.Some?)
      && (c.aiReportStatus == 1 ==> c.shallowReport.Some?)
  {
  }
}
