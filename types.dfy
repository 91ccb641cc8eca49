/** The shape of a normalised holding, as the frontend's components read it. */
module Types {
  import opened Wrappers

  /** The fields of a report's `riskAssessment` the modelled code reads. A
      category is held as its text (`String(x)`); None is a missing or null one. */
  datatype RiskAssessment = RiskAssessment(
    category: Option<string>,
    concerns: Option<string>,
    rationale: Option<string>,
    guidelines: Option<seq<string>>)

  /** A shallow or deep report object. Any object is truthy, so an empty report
      `{}` is present but has no risk assessment. */
  datatype Report = Report(riskAssessment: Option<RiskAssessment>)

  /** The `category` number after `parseInt`: undefined, NaN, or an integer. */
  datatype CategoryValue = NoCategory | NotANumber | Category(n: int)

  datatype Company = Company(
    id: string,
    name: string,
    country: string,
    sector: string,
    marketValueNok: real,
    ownership: real,
    voting: real,
    incorporationCountry: Option<string>,
    state: Option<string>,
    shallowReport: Option<Report>,
    deepReport: Option<Report>,
    aiReportStatus: int,
    category: CategoryValue)
}
