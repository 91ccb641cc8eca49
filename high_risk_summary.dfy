/** The exclusion-candidate spotlight: the holdings of category 1, largest market
    value first, at most ten of them; nothing at all when there are none. */
module HighRiskSummary {
  import opened Wrappers
  import opened Seqs
  import opened StableSort
  import opened Types
  import OverviewStats

  /** How many candidates the spotlight shows. */
  const ShownCount: nat := 10

  /** `c.category === 1` */
  predicate IsCandidate(c: Company)
  {
    c.category == Category(1)
  }

  /** `companies.filter((c) => c.category === 1)` */
  function Candidates(companies: seq<Company>): seq<Company>
  {
    Filter(companies, IsCandidate)
  }

  /** The candidates sorted by descending market value. */
  function RankedCandidates(companies: seq<Company>): seq<Company>
  {
    Sort(Candidates(companies), DescBy(OverviewStats.MarketValue))
  }

  /** The list shown, or None where the component renders null. */
  function Spotlight(companies: seq<Company>): Option<seq<Company>>
  {
    var top := Slice(RankedCandidates(companies), 0, ShownCount);
    if |top| == 0 then None else Some(top)
  }

  /** Nothing is rendered exactly when no holding has category 1. */
  lemma NothingIffNoCandidate(companies: seq<Company>)
    ensures Spotlight(companies).None? <==> forall i :: 0 <= i < |companies| ==> companies[i].category != Category(1)
  {
    var cands := Candidates(companies);
    FilterMembers(companies, IsCandidate);
    SortPermutation(cands, DescBy(OverviewStats.MarketValue));
    var r := RankedCandidates(companies);
    assert |r| == |cands| by {
      assert |multiset(r)| == |multiset(cands)|;
    }
    if exists i :: 0 <= i < |companies| && companies[i].category == Category(1) {
      var i :| 0 <= i < |companies| && companies[i].category == Category(1);
      assert companies[i] in cands;
    }
    if cands != [] {
      assert cands[0] in cands;
    }
  }

  /** The spotlight shows the min(10, n) largest of the n category-1 holdings,
      largest first; each is a category-1 holding of the list, and no candidate
      left out is worth more than one shown. */
  lemma SpotlightRanked(companies: seq<Company>)
    requires Spotlight(companies).Some?
    ensures var shown := Spotlight(companies).value;
      var r := RankedCandidates(companies);
      && |shown| == Min(ShownCount, |Candidates(companies)|)
      && shown == r[..|shown|]
      && (forall i :: 0 <= i < |shown| ==> shown[i] in companies && shown[i].category == Category(1))
      && (forall i, j :: 0 <= i < j < |shown| ==> shown[i].marketValueNok >= shown[j].marketValueNok)
      && (forall i, j :: 0 <= i < |shown| <= j < |r| ==> shown[i].marketValueNok >= r[j].marketValueNok)
  {
    var cands := Candidates(companies);
    var r := RankedCandidates(companies);
    TopN(cands, OverviewStats.MarketValue, ShownCount);
    FilterMembers(companies, IsCandidate);
    SortMembers(cands, DescBy(OverviewStats.MarketValue));
    var shown := Spotlight(companies).value;
    forall i | 0 <= i < |shown|
      ensures shown[i] in companies && shown[i].category == Category(1)
    {
      assert shown[i] == r[i];
      assert r[i] in r;
    }
  }

  /** Candidates of equal market value keep their order in the list. */
  lemma SpotlightStable(companies: seq<Company>, v: real)
    ensures Filter(RankedCandidates(companies), (c: Company) => c.marketValueNok == v)
      == Filter(Candidates(companies), (c: Company) => c.marketValueNok == v)
  {
    SortDescendingStable(Candidates(companies), OverviewStats.MarketValue, (c: Company) => c.marketValueNok == v, v);
  }
}
