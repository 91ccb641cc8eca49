# oljefondsvokteren — a verified model of the data core

oljefondsvokteren is a dashboard over the equity holdings of the Norwegian
Government Pension Fund Global. Each holding carries an AI-written risk
assessment: a category from 1 (exclusion candidate) to 4 (acceptable), the
concerns, the rationale and the ethical guidelines involved. There are two kinds
of report, a "shallow" one and a "deep" one. Underneath the React pages and the
FastAPI service sits a small set of deterministic data transformations. This
project models them in Dafny and proves what they promise:

- the frontend record normaliser (number cleaning, category and report status);
- the overview statistics, in the hook and in the older loop of the overview page;
- the backend service (`_slugify`, the dataset loader, the id index, `list_companies`, `stats`, `get_company`);
- the company list page (option lists, AND-combined filters, the three-key order, pages, page state);
- the chart preparations (`Bars`, `ValueBars`, `ValueDonut`, `CategoryDonut`, `HighRiskSummary`);
- the string helpers (`truncate`, `shortenSector`, `labelForCategory`, `getCountryCode`, four slug functions, the markdown anchor rewrite);
- the crumbs of both breadcrumb trails, the language code, the breakpoint classifier;
- the script that turns the fund's CSV export into base investment records.

Several revisions of the same logic live side by side in the repository. Each
file is modelled on its own code; where two copies are identical, one Dafny
definition serves both and the table cites both.

## Layout

One module per source file, plus shared modules:

- `Wrappers`: `Option` and `Result`.
- `Seqs`: slices with the negative-index rules of JavaScript and Python, `Filter`, and distinctness.
- `Text`: ASCII case mapping, the two white-space sets, trimming, run rewriting, `split` and `join`, decimal text.
- `Numbers`: `parseInt`, `parseFloat`, `Number()`, Python's `int()` on decimal text.
- `StableSort`: insertion sort. It is the one stable sort for a total preorder, so it stands for both `Array.prototype.sort` and Python's `sorted`. Alongside it are lemmas for permutation, order, stability and the top n.
- `Tallies`: the count and sum dictionaries that the loops fill.
- `Slugs`: the slug shape shared by three of the slug functions.
- `ChartEntries`: `Object.entries` and the sort, cut, filter and sum steps the charts share.

The order in which `Object.entries` lists keys is an input (`keys`). The
predicate `Enumerates(keys, data)` says that this order lists every key exactly
once. Market values are exact `real`s.

Code that works step by step is modelled as methods with loops. Each such
method's `ensures` ties its result to a specification function:

- the statistics hook and the overview page's loop;
- the backend loader and `stats`;
- the base-investment script.

The list page's state is a class whose methods change the filters and the page.
Everything else is functions and lemmas.

## Behaviour worth knowing

- The free-text search of the list page reads the name and the shallow
  report only (`CompaniesPage.DeepReportNotSearched`).
- The normaliser parses `marketValueNok` after removing spaces, but leaves the
  comma alone. So "1 234,50" reads as 1234, not 1234.5
  (`CompanyDataContext.MarketValueStopsAtComma`).
- A category is stored as the raw `parseInt` result, with no range check and
  NaN included (`CompanyDataContext.CategoryNotRangeChecked`).
- An empty company list gives no statistics: the hook computes nothing and
  its state stays `null` (`OverviewStats.ComputeStats`).
- The list page has no report-type filter, and the normaliser reads the market
  value from `marketValueNok` and the sector from `industry` only.
- The list page sorts a missing category last with `?? 99`. A NaN category
  compares as equal to everything, so the order is proved only for lists
  without NaN (`CompaniesPage.FilteredIsOrdered`).

## Model

| member | source | states |
|---|---|---|
| CompanyDataContext.AiReportStatus | frontend/src/contexts/CompanyDataContext.tsx:13-21 | 2 exactly when the state is `done_deep` and a deep report is present; 1 exactly when the state is `done_shallow` and a shallow report is present; always 0, 1 or 2 |
| CompanyDataContext.DeriveCategory | frontend/src/contexts/CompanyDataContext.tsx:44-49 | undefined exactly when neither report has a risk assessment; the deep report's assessment decides whenever it has one; otherwise the shallow report's |
| CompanyDataContext.CategoryNotRangeChecked | frontend/src/contexts/CompanyDataContext.tsx:46-48 | any integer n written as the report's category becomes the category unchanged: 0, 7 or -3 are not rejected |
| CompanyDataContext.DeepReportPreferred | frontend/src/contexts/CompanyDataContext.tsx:45-48 | with both reports stating a category, the deep report's category is taken |
| CompanyDataContext.MarketValueIgnoresSpaces | frontend/src/contexts/CompanyDataContext.tsx:56 | the market value of a text equals that of the text with every space removed |
| CompanyDataContext.MarketValueStopsAtComma | frontend/src/contexts/CompanyDataContext.tsx:56 | digits, a comma and more digits read as the digits before the comma: the comma is not a decimal separator for the market value |
| CompanyDataContext.DecimalCommaFirstOnly | frontend/src/contexts/CompanyDataContext.tsx:57-58 | for ownership and voting the first comma becomes the decimal point and the number ends at a second comma: `w,f,...` reads as w.f |
| CompanyDataContext.Normalize | frontend/src/contexts/CompanyDataContext.tsx:51-65 | id, name, country, state, incorporation country and both reports pass through; `industry` becomes `sector`; the three numbers are the cleaned parses (0 when unparsable); status and category are the derived ones |
| CompanyDataContext.NormalizeAll | frontend/src/contexts/CompanyDataContext.tsx:39-67 | exactly one company per raw record, in input order |
| CompanyDataContext.NormalizedStatus | frontend/src/contexts/CompanyDataContext.tsx:13-21 | every normalised company has status 0, 1 or 2, and status 2 (1) implies that the deep (shallow) report is present |
| OverviewStats.ComputeStats | frontend/src/hooks/useOverviewStats.ts:20-66 | the loop over the holdings: an empty list leaves the previous state (null) untouched; otherwise the seven maps, the total value, the count and the top list equal the statistics of the list |
| OverviewStats.CountsAddUp | frontend/src/hooks/useOverviewStats.ts:36-37 | the counts per country and the counts per sector each add up to the number of holdings |
| OverviewStats.CategoryCounts | frontend/src/hooks/useOverviewStats.ts:32-35 | the category counts add up to the number of holdings with a defined category, at most the total; a category is a key exactly when some holding has it; no count is 0 |
| OverviewStats.ValueTotalsAgree | frontend/src/hooks/useOverviewStats.ts:38-41 | the value sums per sector and per country each add up to the total value |
| OverviewStats.TotalValueIsSum | frontend/src/hooks/useOverviewStats.ts:38-39 | the total value is the sum of all market values; skipping the zero ones changes nothing |
| OverviewStats.ValueKeys | frontend/src/hooks/useOverviewStats.ts:38-41 | a sector (country) is a key of the value map exactly when some holding there has a non-zero market value |
| OverviewStats.HighRiskKeys | frontend/src/hooks/useOverviewStats.ts:42-45 | a sector (country) is a key of the high-risk map exactly when some holding there has a non-zero value and category 1 or 2 |
| OverviewStats.HighRiskWithinTotal | frontend/src/hooks/useOverviewStats.ts:42-45 | the high-risk keys are value keys, and with non-negative values each high-risk sum is at most the plain sum |
| OverviewStats.TopInvestmentsLargest | frontend/src/hooks/useOverviewStats.ts:49-51 | the top list has min(10, n) holdings in non-increasing value order, it and the rest of the sorted copy are the whole list, and no holding left out is worth more than one kept |
| OverviewStats.TopInvestmentsStable | frontend/src/hooks/useOverviewStats.ts:49-51 | holdings of equal value keep their input order in the sorted copy |
| Backend.SlugifyIsSlug | backend/app/main.py:56-60 | `_slugify` gives only `[a-z0-9-]`, no hyphen at either end, no doubled hyphen, and never the empty string |
| Backend.SlugOfSlug | backend/app/main.py:56-60 | a non-empty slug is its own slug |
| Backend.SlugifyIdempotent | backend/app/main.py:56-60 | slugifying twice is slugifying once |
| Backend.EmptyNameSlug | backend/app/main.py:60 | the empty name gets the fallback id `item` |
| Backend.CollectAll | backend/app/main.py:66-79 | collecting the rows succeeds exactly when every row loads, and then gives one result per row, in order |
| Backend.CollectFailsOnward | backend/app/main.py:66-79 | once a row fails, the rows after it change nothing: the load fails with the same error |
| Backend.LoadDataset | backend/app/main.py:63-79 | the loop appending one evaluation per row computes the load of all rows, the first failing row failing it |
| Backend.LoadAllRows | backend/app/main.py:66-79 | the load succeeds exactly when every row does, and then gives the row's evaluation at each position |
| Backend.LoadRowId | backend/app/main.py:68-71 | a row without a name loads with the empty name and the id `item` |
| Backend.LoadRowSlug | backend/app/main.py:68-70 | the loaded evaluation is the row's fields with the slug of the name as its id |
| Backend.ReadFieldsDefaults | backend/app/main.py:71-77 | missing country or sector reads as `Unknown`, missing text fields as the empty string, a missing category as 1, a number category as itself |
| Backend.LoadRowDefaults | backend/app/main.py:67-78 | the same defaults hold in the loaded evaluation |
| Backend.RowIdIgnored | backend/app/main.py:68-70 | an id in the row makes no difference to what loads |
| Backend.NullCategoryRejected | backend/app/main.py:76 | a null category makes `int()` fail, and with it the row |
| Backend.IndexLastWins | backend/app/main.py:82-83 | the index holds exactly the ids some evaluation carries, each mapped to an evaluation with that id, and none after it in the list has that id |
| Backend.IndexValues | backend/app/main.py:82-83 | each id maps to the last evaluation that carries it |
| Backend.GetCompany | backend/app/main.py:126-131 | found exactly when the id is indexed, and then the indexed evaluation; otherwise status 404 |
| Backend.GetCompanyFinds | backend/app/main.py:126-131 | over the loaded list, a lookup succeeds exactly when some evaluation has the id, and finds the last one with it |
| Backend.StartupEmpty | backend/app/main.py:87-91 | the service starts with no companies exactly when the file has no rows or some row fails to load; otherwise with one per row |
| Backend.FilterAllOfMembers | backend/app/main.py:103-114 | the four comprehensions keep exactly the evaluations that match every given parameter: text in name, concerns or rationale, equal country and sector ignoring case, equal category |
| Backend.ListedIsPermutation | backend/app/main.py:103-117 | the sorted listing holds the matching evaluations, each as often as in the data |
| Backend.NoParametersListAll | backend/app/main.py:103-117 | without parameters every evaluation is listed |
| Backend.KeyOrderIsPreorder | backend/app/main.py:117 | the sort key `(-category, name.lower())` orders any list totally |
| Backend.ListedOrdered | backend/app/main.py:116-117 | higher categories come first, and within a category the lower-cased names ascend in code-point order |
| Backend.ListedStable | backend/app/main.py:116-117 | `sorted` is stable: evaluations with the same category and lower-cased name keep their order in the data |
| Backend.ListPage | backend/app/main.py:119-123 | `total` is the number of matches; the page holds listing positions [(page-1)·size, page·size), at most size of them, none past the end |
| Backend.Stats | backend/app/main.py:134-148 | the loop over the companies gives the count and the per-category, per-country and per-sector counts |
| Backend.SummaryAddsUp | backend/app/main.py:139-144 | every company is counted once in each map, so each map adds up to the total |
| CompaniesPage.LabelForCategory | frontend/src/pages/CompaniesPage.tsx:24-35 | "1" to "4" get the keys c1 to c4 through t (the identity when t is absent); every other value, the empty one included, gets the "all" key |
| CompaniesPage.LabelsAgreeOnCategories | frontend/src/pages/CompaniesPage.tsx:24-35 | this copy and the shared helper agree on "1" to "4"; elsewhere this one gives the "all" label and the shared one "" |
| CompaniesPage.SelectedCategoryShown | frontend/src/pages/CompaniesPage.tsx:182-197 | whichever of the five category options is selected, the button shows that option's label |
| CompaniesPage.ChoicesFromCompanies | frontend/src/pages/CompaniesPage.tsx:57-60 | the country (sector) choices are exactly the non-empty countries (sectors) of the companies |
| CompaniesPage.NoFiltersMatchAll | frontend/src/pages/CompaniesPage.tsx:63-78 | with all four filters empty every company matches |
| CompaniesPage.ClearingAFilterWidens | frontend/src/pages/CompaniesPage.tsx:72-77 | the tests are AND-combined: clearing any one filter keeps every company that matched |
| CompaniesPage.DeepReportNotSearched | frontend/src/pages/CompaniesPage.tsx:66-73 | replacing the deep report changes no match: the search reads the name and the shallow report only |
| CompaniesPage.NameContainingQueryMatches | frontend/src/pages/CompaniesPage.tsx:66-73 | a name that contains the query, ignoring case, matches the search |
| CompaniesPage.CategoryFilterExact | frontend/src/pages/CompaniesPage.tsx:76 | the filter written as the decimal text of n lets a company through exactly when n is not 0 and its category is n |
| CompaniesPage.FilteredIsPermutation | frontend/src/pages/CompaniesPage.tsx:63-93 | the table lists the matching companies, each as often as in the data, and nothing else |
| CompaniesPage.OrderIsPreorder | frontend/src/pages/CompaniesPage.tsx:79-92 | without NaN categories and with `localeCompare` ordering the names, the comparator is a total preorder |
| CompaniesPage.FilteredIsOrdered | frontend/src/pages/CompaniesPage.tsx:79-92 | report status descending, then category ascending with a missing one as 99, then names in `localeCompare` order |
| CompaniesPage.PageCount | frontend/src/pages/CompaniesPage.tsx:95-96 | the fewest pages of 50 that hold the rows |
| CompaniesPage.PageItemsRange | frontend/src/pages/CompaniesPage.tsx:97 | page p holds rows [(p-1)·50, p·50), at most 50, and a page past the count is empty |
| CompaniesPage.RowOnItsPage | frontend/src/pages/CompaniesPage.tsx:95-97 | row i is row i mod 50 of page i div 50 + 1, a page between 1 and the page count |
| CompaniesPage.ConcernsCell | frontend/src/pages/CompaniesPage.tsx:263 | deep concerns when non-empty, else shallow ones, else "-", cut to 200 characters plus the ellipsis; never empty |
| CompaniesPage.GuidelinesCell | frontend/src/pages/CompaniesPage.tsx:257-260 | when the deep report has a guideline list, the cell is that list joined by ", " and cut to 200 characters, or "-" when the join is empty (an empty deep list included); otherwise the same for the shallow list, or "-" when neither has one; never empty and at most 201 characters |
| CompaniesPage.DeepListShadowsShallow | frontend/src/pages/CompaniesPage.tsx:258 | once the deep report has a guideline list, any shallow report gives the same cell |
| CompaniesPage.DeepGuidelinePreferred | frontend/src/pages/CompaniesPage.tsx:257-260 | a single deep guideline is shown whatever the shallow report says |
| CompaniesPage.PageState.constructor | frontend/src/pages/CompaniesPage.tsx:49-55 | the filters start from the URL parameters or ""; the page starts at 1 because the reset effect runs on mount |
| CompaniesPage.PageState.SetFilters | frontend/src/pages/CompaniesPage.tsx:110-112 | the new filters are set; the page goes back to 1 exactly when they differ from the old ones |
| CompaniesPage.PageState.SetQuery | frontend/src/pages/CompaniesPage.tsx:124 | a new query resets the page to 1, the same query leaves it |
| CompaniesPage.PageState.SetCountry | frontend/src/pages/CompaniesPage.tsx:128 | a new country resets the page to 1, the same country leaves it |
| CompaniesPage.PageState.SetSector | frontend/src/pages/CompaniesPage.tsx:155 | a new sector resets the page to 1, the same sector leaves it |
| CompaniesPage.PageState.SetCategory | frontend/src/pages/CompaniesPage.tsx:182 | a new category resets the page to 1, the same category leaves it |
| CompaniesPage.PageState.Prev | frontend/src/pages/CompaniesPage.tsx:275 | disabled at page 1; otherwise one page back; never below 1, filters unchanged |
| CompaniesPage.PageState.Next | frontend/src/pages/CompaniesPage.tsx:281 | disabled at or past the page count; otherwise one page on; the page stays valid, filters unchanged |
| CompanyFilters.UniqueSortedMembers | frontend/src/components/companies/CompanyFilters.tsx:22-24 | `uniqueSorted` lists every non-empty input value and nothing else, none twice |
| CompanyFilters.UniqueSortedOrdered | frontend/src/components/companies/CompanyFilters.tsx:22-24 | when `localeCompare` orders the values consistently, the list ascends in that order |
| CompanyFilters.OptionListMembers | frontend/src/components/companies/CompanyFilters.tsx:43-47 | nothing typed gives every option; otherwise exactly the options that contain the typed text ignoring case, never more than there are |
| CompanyFilters.OptionListOrder | frontend/src/components/companies/CompanyFilters.tsx:43-47 | narrowing keeps the options' order: it distributes over concatenation |
| CompanyFilters.ReportTypeLabel | frontend/src/components/companies/CompanyFilters.tsx:170-172 | empty gives the "all" label; "0", "1" and "2" the none, basic and deep labels; anything else the key `report_type.undefined` |
| CompanyFilters.SelectedOptionShown | frontend/src/components/companies/CompanyFilters.tsx:180-185 | whichever of the four options is selected, the button shows that option's label |
| Pagination.Press | frontend/src/components/companies/Pagination.tsx:14-30 | Prev is disabled at page 1 or below and Next at the page count or beyond, and a disabled click does nothing; otherwise Prev asks for page - 1 and Next for page + 1 |
| Pagination.PressStaysInRange | frontend/src/components/companies/Pagination.tsx:15-28 | one click from a page in [1, pageCount] lands in [1, pageCount], at most one page away |
| Pagination.PressAllInRange | frontend/src/components/companies/Pagination.tsx:15-28 | any series of clicks from a page in [1, pageCount] stays in [1, pageCount] |
| Pagination.NextRepeated | frontend/src/components/companies/Pagination.tsx:24-28 | n clicks on Next move n pages on, but stop at the last page |
| OverviewPage.ComputeStats | frontend/src/pages/OverviewPage.tsx:89-122 | the older loop: an empty list leaves the state as it was; otherwise the five maps, the count and the top list equal the page's statistics of the list |
| OverviewPage.TopEntries | frontend/src/pages/OverviewPage.tsx:110-113 | one `{name, value}` pair per holding of the top ten, in the same order |
| OverviewPage.PageCountsAddUp | frontend/src/pages/OverviewPage.tsx:102-103 | the counts per country and per sector each add up to the number of holdings |
| OverviewPage.ShallowCategoryMeaning | frontend/src/pages/OverviewPage.tsx:98-99 | a holding is counted under k exactly when its shallow report has a risk assessment whose category is the non-empty text k |
| OverviewPage.ShallowCategoryCounts | frontend/src/pages/OverviewPage.tsx:98-101 | the category counts add up to the number of holdings with such a category, at most the total; k is a key exactly when some holding has it; no count is 0 |
| OverviewPage.DeepReportIgnored | frontend/src/pages/OverviewPage.tsx:98-101 | lists that agree on the shallow reports have the same category counts, whatever their deep reports |
| OverviewPage.PageValueTotals | frontend/src/pages/OverviewPage.tsx:104-107 | the value sums per sector and per country each add up to the sum of all market values |
| OverviewPage.TopEntriesRanked | frontend/src/pages/OverviewPage.tsx:110-113 | min(10, n) pairs, each the name and value of the holding at that place of the stable descending sort, values not increasing, none left out worth more |
| OverviewPage.TopChartAsGiven | frontend/src/pages/OverviewPage.tsx:249-255 | the top-investments chart, given as an array without `max`, shows the ten pairs as they are |
| OverviewPage.PageBarsRanked | frontend/src/pages/OverviewPage.tsx:202-206 | min(max, number of keys) bars, largest count first, each a key with its own count and its name not shortened, no count left out larger than one shown |
| OverviewPage.ToSegment | frontend/src/pages/OverviewPage.tsx:312-317 | a segment keeps the entry's name and value |
| OverviewPage.SegmentLabels | frontend/src/pages/OverviewPage.tsx:301-317 | keys "1" to "4" get exclude, observe, monitor, ok and their colours; any other key is its own label, in grey |
| OverviewPage.Segments | frontend/src/pages/OverviewPage.tsx:312-317 | one segment per entry, in order |
| OverviewPage.DonutKeys | frontend/src/pages/OverviewPage.tsx:308-309 | one segment for each key but "undefined", and each segment carries its key's count |
| OverviewPage.DonutOrdered | frontend/src/pages/OverviewPage.tsx:310 | when the kept keys are numbers, the segments ascend by key |
| OverviewPage.SegmentsTotal | frontend/src/pages/OverviewPage.tsx:318 | the ring's sum is the sum of the entries it was made from |
| OverviewPage.DonutTotal | frontend/src/pages/OverviewPage.tsx:318 | the total is the count of everything minus the "undefined" bucket |
| CategoryDonut.ToWedge | frontend/src/components/overview/CategoryDonut.tsx:29-34 | a segment keeps the entry's key as its name and its count as its value |
| CategoryDonut.WedgeLabels | frontend/src/components/overview/CategoryDonut.tsx:17-34 | keys 1 to 3 get their fixed label key and colour; a key outside the mapping is its own label, coloured `#64748b` |
| CategoryDonut.Wedges | frontend/src/components/overview/CategoryDonut.tsx:29-34 | one segment per entry, in order |
| CategoryDonut.NoteShownIffAcceptable | frontend/src/components/overview/CategoryDonut.tsx:74 | the note appears exactly when key "4" holds a positive count; `acceptableCount` is that count, or 0 |
| CategoryDonut.WedgesTotal | frontend/src/components/overview/CategoryDonut.tsx:35 | the segments add up to the entries they come from |
| CategoryDonut.ChartKeys | frontend/src/components/overview/CategoryDonut.tsx:25-26 | one segment for each key other than "undefined" and "4", each with that key's count, and no other segment |
| CategoryDonut.SegmentNames | frontend/src/components/overview/CategoryDonut.tsx:29-30 | the names of the segments, in ring order |
| CategoryDonut.ChartOrdered | frontend/src/components/overview/CategoryDonut.tsx:27 | when the kept keys are numbers, the segments ascend by key |
| CategoryDonut.TotalLeavesOutHidden | frontend/src/components/overview/CategoryDonut.tsx:35 | the total is the sum of all counts minus those under "4" and "undefined" |
| ChartEntries.Entries | frontend/src/components/overview/Bars.tsx:27 | `Object.entries` in the order keys: one pair per key with the key's value |
| ChartEntries.EntriesMembers | frontend/src/components/overview/Bars.tsx:27 | the entries of a count dictionary are exactly its keys, each with its count |
| ChartEntries.EntriesTotal | frontend/src/components/overview/ValueDonut.tsx:21 | all entries together add up to the dictionary's values |
| ChartEntries.FilteredTotal | frontend/src/components/overview/CategoryDonut.tsx:25-35 | the entries outside the dropped keys add up to the dictionary's values outside those keys |
| ChartEntries.TotalSort | frontend/src/components/overview/ValueDonut.tsx:16-21 | sorting does not change the total |
| ChartEntries.RankedTop | frontend/src/components/overview/Bars.tsx:27-29 | `sort(b - a).slice(0, max ?? MAX_SAFE_INTEGER)` keeps min(max, n) entries, a prefix of the descending sort, in non-increasing order; kept and dropped are all of them; no dropped entry is larger than a kept one |
| ChartEntries.RankedAll | frontend/src/components/overview/Bars.tsx:29 | without `max` every entry is kept |
| ChartEntries.ByValueDescMembers | frontend/src/components/overview/Bars.tsx:27-28 | the descending sort holds the same entries |
| ChartEntries.RankedWithinTotal | frontend/src/components/overview/ValueDonut.tsx:16-21 | with non-negative values the kept entries add up to at most the total |
| ChartEntries.ShortNames | frontend/src/components/overview/Bars.tsx:30 | each name passes through `shortenSector` and each value is unchanged, in order |
| ChartEntries.ShortNamesTotal | frontend/src/components/overview/ValueDonut.tsx:20-21 | renaming does not change the total |
| ChartEntries.ByNumericKeyMembers | frontend/src/components/overview/CategoryDonut.tsx:25-27 | the filtered, numerically sorted entries are exactly the kept keys with their counts |
| ChartEntries.ByNumericKeyTotal | frontend/src/components/overview/CategoryDonut.tsx:25-35 | they add up to the dictionary's total outside the dropped keys |
| ChartEntries.ByNumericKeyOrdered | frontend/src/components/overview/CategoryDonut.tsx:27 | when every kept key is a number, `Number(a) - Number(b)` sorts the names ascending |
| ChartEntries.NumericOrder | frontend/src/components/overview/CategoryDonut.tsx:27 | with a number for every name, the comparator sorts by it ascending, and the result is a permutation |
| Bars.BarsRanked | frontend/src/components/overview/Bars.tsx:26-30 | min(max, number of keys) bars; bar i is the i-th entry of the descending sort with its name shortened and its value unchanged; values never increase along the bars |
| Bars.BarsFromData | frontend/src/components/overview/Bars.tsx:26-30 | every bar is some key of the data, shortened, with that key's value |
| Bars.BarsTotal | frontend/src/components/overview/Bars.tsx:26-30 | with counts that are not negative, the bars drawn add up to at most the total of all counts |
| ValueBars.ArrayKeepsOrder | frontend/src/components/overview/ValueBars.tsx:44-50 | an array is drawn in its own order: its first min(max, n) entries |
| ValueBars.RecordRanked | frontend/src/components/overview/ValueBars.tsx:44-50 | a dictionary gives min(max, number of keys) bars, each a key with its value, largest first, and no value left out exceeds a value drawn |
| ValueBars.EmptyStateIffZeroTotal | frontend/src/components/overview/ValueBars.tsx:52 | for values that are not negative, the empty state shows exactly when the values drawn add up to 0 |
| ValueDonut.ColorAt | frontend/src/components/overview/ValueDonut.tsx:31 | every segment's colour is one of the ten palette colours |
| ValueDonut.DonutRanked | frontend/src/components/overview/ValueDonut.tsx:16-20 | at most seven segments; segment i is the i-th entry of the descending sort, name shortened and value unchanged; no value left out exceeds one kept |
| ValueDonut.TotalOfKept | frontend/src/components/overview/ValueDonut.tsx:16-21 | the total is the sum of the segments drawn, and together with the values left out it is the sum of the whole dictionary |
| ValueDonut.ColorsDistinct | frontend/src/components/overview/ValueDonut.tsx:7 | the at most seven segments get pairwise different colours |
| HighRiskSummary.NothingIffNoCandidate | frontend/src/components/overview/HighRiskSummary.tsx:16-23 | the panel renders nothing exactly when no company has category 1 |
| HighRiskSummary.SpotlightRanked | frontend/src/components/overview/HighRiskSummary.tsx:16-19 | at most ten companies, the first of the candidates sorted by market value, each a category-1 company of the input, largest first, none left out larger |
| HighRiskSummary.SpotlightStable | frontend/src/components/overview/HighRiskSummary.tsx:18 | companies with equal market value keep their input order (the sort is stable) |
| SharedUtils.GetCountryCode | frontend/src/shared/utils.ts:6-11 | "United States" gives US and "United Kingdom" gives GB; any other name whose lower case contains "hong kong" gives HK; every other name is the alpha-2 lookup's answer, possibly none; `utils/utils.ts:6-11` and `CompaniesPage.tsx:17-22` hold the same code |
| SharedUtils.HongKongFound | frontend/src/shared/utils.ts:9 | a name with "Hong Kong" anywhere in it gets HK without the lookup being asked |
| SharedUtils.ShortenSector | frontend/src/shared/utils.ts:13-15 | "Consumer Discretionary" becomes "Consumer Disc."; every other sector is unchanged; `utils/utils.ts:13-15` holds the same code |
| SharedUtils.ShortenSectorIdempotent | frontend/src/shared/utils.ts:13-15 | shortening twice is shortening once |
| SharedUtils.ShortenSectorMerges | frontend/src/shared/utils.ts:13-15 | the only two sectors that shorten to the same name are "Consumer Discretionary" and "Consumer Disc." |
| SharedUtils.LabelForCategory | frontend/src/shared/utils.ts:33-43 | "1" to "4" get the translation of their category key; anything else gets the empty string; `utils/utils.ts:51-61` holds the same code |
| SharedUtils.LabelOfIntegerCategory | frontend/src/shared/utils.ts:33-43 | the decimal text of an integer n gets the key `companies.category.c<n>` exactly when 1 <= n <= 4, and the empty string otherwise |
| SharedUtils.Truncate | frontend/src/shared/utils.ts:45-50 | a text no longer than the limit is returned as is; a longer one becomes its first `length` characters and one "…"; `CompaniesPage.tsx:37-42` holds the same code |
| SharedUtils.TruncateKeepsPrefix | frontend/src/shared/utils.ts:45-50 | the result is at most one character longer than the limit and starts with the input's first min(length, \|s\|) characters |
| Utils.Truncate | frontend/src/utils/utils.ts:63-68 | as written in the older file: a text longer than the limit gets its first `length` characters and the three characters U+00E2 U+20AC U+00A6, three more than the limit |
| Utils.TruncateMisencoded | frontend/src/utils/utils.ts:63-68 | whenever a text is cut, the older version is two characters longer than the shared one, the two agree on the kept part, and only the suffix differs |
| Utils.TruncateExample | frontend/src/utils/utils.ts:67 | "abcd" cut at 2 gives "abâ€¦" in the older file and "ab…" in the shared one |
| Marked.StripMarkdownFormattingShape | frontend/src/shared/marked.ts:3-5 | no `*`, `_` or `\` is left and the result neither starts nor ends with white space |
| Marked.StripMarkdownFormattingIdempotent | frontend/src/shared/marked.ts:3-5 | stripping twice is stripping once |
| Marked.CleanedNoUpper | frontend/src/shared/marked.ts:8-10 | after lower-casing and trimming no upper-case ASCII letter is left |
| Marked.SlugifyIsSlug | frontend/src/shared/marked.ts:7-13 | the heading slug is lower-case letters, digits and single inner hyphens, with no hyphen at either end (possibly empty) |
| Marked.SlugifyIdempotent | frontend/src/shared/marked.ts:7-13 | a heading slug is its own slug |
| Marked.SlugifySingleLine | frontend/src/shared/marked.ts:7-13 | no heading slug holds a line terminator |
| Marked.LineLength | frontend/src/shared/marked.ts:19 | the first line ends at the first line terminator (`\n`, `\r`, U+2028, U+2029) or at the end of the text, none before it |
| Marked.RewriteLineAnchored | frontend/src/shared/marked.ts:19-24 | a rewritten `## ` heading stays one line, still starts with `## ` and carries an anchor the `{#...}` test recognises |
| Marked.RewriteHeading | frontend/src/shared/marked.ts:23 | a `## ` heading without an anchor becomes `## content {#slug(content)}` |
| Marked.HeadingGetsAnchor | frontend/src/shared/marked.ts:19-23 | `## content` without an anchor ends in the anchor of the content's slug |
| Marked.RewriteLineUnchanged | frontend/src/shared/marked.ts:19-22 | a line that is not a `## ` heading, or whose trimmed content already ends in an anchor, is left as it is |
| Marked.DeeperHeadingUnchanged | frontend/src/shared/marked.ts:19 | a `### ` heading is not rewritten |
| Marked.RewriteLineIdempotent | frontend/src/shared/marked.ts:19-24 | rewriting a line twice is rewriting it once, and the result is one line |
| Marked.PreprocessStep | frontend/src/shared/marked.ts:19 | the rewrite works line by line: the first line is rewritten and its terminator and the rest follow |
| Marked.PreprocessIdempotent | frontend/src/shared/marked.ts:18-25 | running the document rewrite on its own output changes nothing |
| Marked.PreprocessUnchanged | frontend/src/shared/marked.ts:18-25 | a document none of whose lines is an un-anchored `## ` heading is unchanged |
| UseCompanyData.FoldedNoUpper | frontend/src/shared/useCompanyData.ts:28-34 | after removing the combining marks, lower-casing and trimming no upper-case ASCII letter is left |
| UseCompanyData.FilteredChars | frontend/src/shared/useCompanyData.ts:28-36 | after the white-space rewrite and the character filter only `[a-z0-9_-]` is left |
| UseCompanyData.SlugifyShape | frontend/src/shared/useCompanyData.ts:28-37 | the id holds only `[a-z0-9_-]` and never two hyphens in a row |
| UseCompanyData.LeadingHyphenKept | frontend/src/shared/useCompanyData.ts:28-37 | a hyphen that begins the folded text still begins the id: this slug does not strip hyphens at the ends |
| UseCompanyData.AccentDropped | frontend/src/shared/useCompanyData.ts:31-32 | an accented letter that decomposes into a base letter and a combining mark loses the mark: "é" gives "e" |
| UseCompanyData.SetIdsRecords | frontend/src/shared/useCompanyData.ts:38-43 | the list is replaced exactly when every record has a name; then each record keeps its other fields and its id becomes the slug of its name |
| UseCompanyData.WithIdsRecords | frontend/src/shared/useCompanyData.ts:28-43 | the same with the hook's own slug: every id is the slug of the record's name |
| Breadcrumbs.FindName | frontend/src/components/layout/Breadcrumbs.tsx:21-24 | a name is found exactly when some company has the id, and it is the name of the first such company |
| Breadcrumbs.Crumbs | frontend/src/components/layout/Breadcrumbs.tsx:12-30 | one crumb per non-empty path segment |
| Breadcrumbs.SegmentsShape | frontend/src/components/layout/Breadcrumbs.tsx:12 | every segment is non-empty and holds no slash |
| Breadcrumbs.PathToStep | frontend/src/components/layout/Breadcrumbs.tsx:15 | each link is the previous one with `/` and one more segment |
| Breadcrumbs.PathToNested | frontend/src/components/layout/Breadcrumbs.tsx:15 | every link starts with each earlier link followed by `/` |
| Breadcrumbs.PathToSegments | frontend/src/components/layout/Breadcrumbs.tsx:12-15 | the segments of the i-th link are exactly the first i+1 segments of the path |
| Breadcrumbs.CrumbsTrail | frontend/src/components/layout/Breadcrumbs.tsx:12-30 | the crumbs' links are nested in order and the i-th link leads to the first i+1 segments |
| Breadcrumbs.CapitalizeOnlyCase | frontend/src/components/layout/Breadcrumbs.tsx:16 | the default label has the segment's length, changes only its first character, which is no longer a lower-case letter, and equals the segment ignoring case |
| Breadcrumbs.LabelPriority | frontend/src/components/layout/Breadcrumbs.tsx:16-27 | `companies` always gets the companies label; the route id gets the name of a company with that id, or the capitalised segment when none has it; `report` gets the report label unless it is the route id |
| App.AppCrumbs | frontend/src/App.tsx:16-30 | one crumb per non-empty path segment in the header's trail |
| App.SameLinks | frontend/src/App.tsx:16-19 | the header's trail links, crumb by crumb, to the same places as the layout's trail |
| App.AppLabelCapitalized | frontend/src/App.tsx:20-27 | without an id in the route, and for every segment other than `companies` and `report`, the label is the capitalised segment |
| App.CompaniesCrumbNamesCompany | frontend/src/App.tsx:22-24 | with an id in the route, the `companies` segment shows the name of the first company with that id, or the id itself when none has it |
| App.LanguageCodePrefix | frontend/src/App.tsx:89 | the selector value is the language tag up to its first hyphen, the whole tag when it has none |
| App.DataStatusLoaded | frontend/src/App.tsx:79 | "Data loaded" shows exactly when nothing is loading and there is no error |
| Breakpoint.Bands | frontend/src/shared/useBreakpoint.ts:3-8 | sm below 640, md from 640 below 768, lg from 768 below 1024, xl from 1024 on, each band exactly |
| Breakpoint.Monotone | frontend/src/shared/useBreakpoint.ts:3-8 | a wider window never gets a smaller breakpoint |
| BaseInvestments.CreateBaseInvestments | scripts/create_base_investments.py:17-40 | with the first row skipped as the export's header, one record per remaining row in order; an export with no row at all fails |
| BaseInvestments.MapAll | scripts/create_base_investments.py:21-40 | one output per input, the i-th the function applied to the i-th input |
| BaseInvestments.ZipKeys | scripts/create_base_investments.py:22 | every key of the zipped dictionary is one of the first min(keys, cells) header names |
| BaseInvestments.ZipLookup | scripts/create_base_investments.py:22 | with distinct header names, name i is bound to cell i when the row has one and missing otherwise |
| BaseInvestments.Lookup | scripts/create_base_investments.py:27-39 | a value is found exactly when some member has the key |
| BaseInvestments.LookupAt | scripts/create_base_investments.py:27-39 | the member found is the first with that key |
| BaseInvestments.RecordFields | scripts/create_base_investments.py:22-37 | field i of the header holds cell i of the row, or null when the row is too short |
| BaseInvestments.RecordShape | scripts/create_base_investments.py:27-39 | every record has the same eleven keys in the same order, an empty `shallowReport`, and neither `state` nor `sector` |
| BaseInvestments.RecordId | scripts/create_base_investments.py:25-28 | the id is the slug of the name cell, or of "" when the row has none, and it is a slug |
| BaseInvestments.BaseSlugIsSlug | scripts/create_base_investments.py:25 | the id is lower-case letters and digits with single inner hyphens and none at the ends |
| BaseInvestments.BaseSlugMayBeEmpty | scripts/create_base_investments.py:25 | a name without letters or digits gets the empty id: there is no fallback |
| BaseInvestments.BaseSlugIdempotent | scripts/create_base_investments.py:25 | the slug of an id is the id |
| BaseInvestments.AgreesWithService | scripts/create_base_investments.py:25 | for a name without white space at its ends, the service's slug is this id, with "item" in place of the empty id |

## Left out

- Network and file I/O are not modelled: `fetchData` in `CompanyDataContext.tsx` and `useCompanyData.ts`, the file open and JSON load of `_load_dataset`, and the CSV reading, JSON writing and final message of `create_base_investments.py`. The model starts from the decoded records and rows.
- React machinery is not modelled: `useState`, `useEffect`, `useMemo`, context and the sync of the URL search parameters. Their computed values are functions, and the list page's page state is the class `CompaniesPage.PageState`.
- Rendering is not modelled: JSX, recharts, icons, flags, Tailwind classes, tooltips and the i18n resource tables. Translation is a parameter `t`.
- `localeCompare`, `normalize('NFD')` and `getAlpha2Code` are function parameters. The ordering lemmas assume `localeCompare` orders the names present as a total preorder.
- Case mapping (`toLowerCase`, `toUpperCase`, Python's `lower()`) covers ASCII letters only. Other letters keep their case.
- The list page and the overview page read their companies from `shared/useCompanyData.ts`, which adds only an id to the raw JSON records. Both pages are modelled on records that already have the normalised field types of `Types.Company`: a report status in {0, 1, 2}, an integer, absent or NaN category and a real market value. A raw record that lacks `aiReportStatus` or holds a value of another type is not modelled; with it the status comparison can give NaN, and `CompaniesPage.FilteredIsOrdered` does not apply.
- Strings are sequences of Unicode code points. JavaScript's `.length`, `.slice` and `.charAt` count UTF-16 code units, so on text outside the Basic Multilingual Plane `SharedUtils.Truncate`, `Utils.Truncate`, `CompaniesPage.ConcernsCell`, `CompaniesPage.GuidelinesCell` and `Breadcrumbs.Capitalize` can differ from the code: a limit of 200 units is fewer than 200 such characters, and half a surrogate pair can be kept.
- Backend.CategoryField: a row value is text, an integer or null (`Backend.Value`). A JSON float or boolean category, which Python's `int()` accepts (`int(2.0)`, `int(True)`), is not representable. Integer text is read as optional white space, an optional sign and ASCII digits; the underscore form `1_000` and non-ASCII digits, which `int()` also accepts, are rejected here.
- `parseFloat` and `Number()` are modelled on plain decimal text: sign, digits, optional fraction, optional exponent. `Infinity`, hexadecimal and other forms read as NaN here.
- Market values are exact reals. Double rounding and overflow are not modelled, and neither is `formatToHumanMonetary`.
- `useBreakpoint`'s resize listener and `window.innerWidth` are not modelled; the width is a parameter of `Breakpoint.GetBreakpoint`.
- The order in which `Object.entries` lists a dictionary's keys is an input (`keys`), not derived from JavaScript's insertion-order rules.
- The `top_investments` sort works on a copy, so the input list is not reordered. With values instead of arrays this holds trivially and has no lemma.
- The FastAPI `Query` bounds (page at least 1, page size from 1 to 200) are the precondition `Backend.ValidQuery`. FastAPI's own rejection of other values is not modelled.
- `get_company`'s HTTP 404 is the error case of a `Result`; the exception itself and FastAPI's response are not modelled.
- The `marked.use` registration is a module side effect and is not modelled; `Marked.Preprocess` is the hook itself.
- `App.tsx`'s error-message effect and the theme toggle are not modelled.
- CompaniesPage.FilteredIsOrdered: is proved only for lists without a NaN category. A NaN category compares as equal to every other, so the comparator is not a preorder then.
- CompaniesPage.OrderIsPreorder: holds only without a NaN category, for the same reason.
- CategoryDonut.ChartOrdered: is proved only when every kept key is decimal text. A non-numeric key makes the `Number(a) - Number(b)` comparison NaN, and the order depends on the engine.
- OverviewPage.DonutOrdered: is proved only for numeric keys, for the same reason.
- OverviewStats.HighRiskWithinTotal: assumes market values that are not negative; with negative values a high-risk sum can exceed the total.
- Bars.BarsTotal: assumes counts that are not negative, which the counting loops always give.

## Findings

| source | as written | input that shows it | evidently intended | confidence | as-written member | corrected member |
|---|---|---|---|---|---|---|
| frontend/src/utils/utils.ts:63-68 | a cut text gets the suffix `'â€¦'`: the three characters U+00E2, U+20AC and U+00A6, the UTF-8 bytes of "…" read back as Windows-1252 | `truncate("abcd", 2)` gives "abâ€¦", 5 characters, where the shared copy gives "ab…" | the one-character ellipsis "…", as in `frontend/src/shared/utils.ts:45-50`, giving length n+1 | not executed | Utils.TruncateExample | SharedUtils.Truncate |
