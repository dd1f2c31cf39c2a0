/** The results tab (src/components/dashboard/results-tab.tsx): the list of
    completed analyses, narrowed by a location filter and a minimum score,
    and the list of locations offered by the location picker. */
module ResultsTab {
  import opened Types
  import opened Seqs

  /** The minimum-score box, after `parseInt`: empty, a number, or text
      that does not parse (NaN, which no comparison satisfies). */
  datatype MinScoreFilter = NoMinimum | AtLeast(min: int) | NotANumber

  /** The value the picker's "All Locations" entry puts in the filter. */
  const ALL_LOCATIONS := "all"

  predicate ScoreMatches(r: AnalysisResult, minScore: MinScoreFilter) {
    match minScore
    case NoMinimum => true
    case AtLeast(min) => r.relevanceScore >= min
    case NotANumber => false
  }

  /** The location test as written: only the empty filter lets every
      location through. */
  predicate LocationMatchesAsWritten(r: AnalysisResult, locationFilter: string) {
    locationFilter == "" || r.location == locationFilter
  }

  /** `filteredResults` as written. */
  function FilteredResultsAsWritten(results: seq<AnalysisResult>, locationFilter: string, minScore: MinScoreFilter)
    : (kept: seq<AnalysisResult>)
    ensures IsSubsequence(kept, results)
    ensures forall r :: r in kept ==> r in results
    ensures forall r :: r in results ==>
      (r in kept <==> LocationMatchesAsWritten(r, locationFilter) && ScoreMatches(r, minScore))
    ensures forall r :: multiset(kept)[r]
                        == (if LocationMatchesAsWritten(r, locationFilter) && ScoreMatches(r, minScore) then multiset(results)[r] else 0)
  {
    var keep := (r: AnalysisResult) => LocationMatchesAsWritten(r, locationFilter) && ScoreMatches(r, minScore);
    FilterIsSubsequence(results, keep);
    FilterMultiset(results, keep);
    Filter(results, keep)
  }

  /** Choosing "All Locations" as written hides every result, unless some
      location is literally "all". */
  lemma AllLocationsHidesEverythingAsWritten(results: seq<AnalysisResult>, minScore: MinScoreFilter)
    requires forall r :: r in results ==> r.location != ALL_LOCATIONS
    ensures FilteredResultsAsWritten(results, ALL_LOCATIONS, minScore) == []
  {
    FilterNone(results, (r: AnalysisResult) => LocationMatchesAsWritten(r, ALL_LOCATIONS) && ScoreMatches(r, minScore));
  }

  /** The same, on one result in Pune with no minimum score. */
  lemma AllLocationsCounterexample(r: AnalysisResult)
    requires r.location == "Pune"
    ensures FilteredResultsAsWritten([r], ALL_LOCATIONS, NoMinimum) == []
  {
    assert r.location != ALL_LOCATIONS by { assert |r.location| != |ALL_LOCATIONS|; }
    AllLocationsHidesEverythingAsWritten([r], NoMinimum);
  }

  /** The intended location test: the empty filter and "All Locations" both
      let every location through. */
  predicate LocationMatches(r: AnalysisResult, locationFilter: string) {
    locationFilter == "" || locationFilter == ALL_LOCATIONS || r.location == locationFilter
  }

  /** `filteredResults` with "All Locations" meaning no location filter. */
  function FilteredResults(results: seq<AnalysisResult>, locationFilter: string, minScore: MinScoreFilter)
    : (kept: seq<AnalysisResult>)
    ensures IsSubsequence(kept, results)
    ensures forall r :: r in kept ==> r in results
    ensures forall r :: r in results ==>
      (r in kept <==> LocationMatches(r, locationFilter) && ScoreMatches(r, minScore))
    ensures forall r :: multiset(kept)[r]
                        == (if LocationMatches(r, locationFilter) && ScoreMatches(r, minScore) then multiset(results)[r] else 0)
  {
    var keep := (r: AnalysisResult) => LocationMatches(r, locationFilter) && ScoreMatches(r, minScore);
    FilterIsSubsequence(results, keep);
    FilterMultiset(results, keep);
    Filter(results, keep)
  }

  /** With no location chosen (empty or "All Locations") and no minimum,
      every result is kept, in order. */
  lemma NoFilterKeepsEverything(results: seq<AnalysisResult>, locationFilter: string)
    requires locationFilter == "" || locationFilter == ALL_LOCATIONS
    ensures FilteredResults(results, locationFilter, NoMinimum) == results
  {
    FilterAll(results, (r: AnalysisResult) => LocationMatches(r, locationFilter) && ScoreMatches(r, NoMinimum));
  }

  /** As written, too, an empty location filter with no minimum keeps every
      result, in order. */
  lemma NoFilterKeepsEverythingAsWritten(results: seq<AnalysisResult>)
    ensures FilteredResultsAsWritten(results, "", NoMinimum) == results
  {
    FilterAll(results, (r: AnalysisResult) => LocationMatchesAsWritten(r, "") && ScoreMatches(r, NoMinimum));
  }

  /** A concrete location keeps only results at exactly that location, and
      a minimum keeps only results scoring at least that much. */
  lemma KeptResultsSatisfyFilters(results: seq<AnalysisResult>, locationFilter: string, minScore: MinScoreFilter, r: AnalysisResult)
    requires r in FilteredResults(results, locationFilter, minScore)
    ensures locationFilter != "" && locationFilter != ALL_LOCATIONS ==> r.location == locationFilter
    ensures minScore.AtLeast? ==> r.relevanceScore >= minScore.min
    ensures !minScore.NotANumber?
  {
  }

  /** `results.map(r => r.location)`. */
  function Locations(results: seq<AnalysisResult>): (locations: seq<string>)
    ensures |locations| == |results|
    ensures forall i :: 0 <= i < |results| ==> locations[i] == results[i].location
  {
    seq(|results|, i requires 0 <= i < |results| => results[i].location)
  }

  /** `uniqueLocations`: each location of some result, once, in order of
      first appearance. */
  function UniqueLocations(results: seq<AnalysisResult>): (locations: seq<string>)
    ensures NoDuplicates(locations)
    ensures forall l :: l in locations <==> exists r :: r in results && r.location == l
    ensures InFirstOccurrenceOrder(locations, Locations(results))
  {
    DedupFirstOccurrenceOrder(Locations(results));
    Dedup(Locations(results))
  }

  /** Picking a location offered by the picker never leaves the list empty
      (without a minimum score), in the filter as written as well. */
  lemma OfferedLocationKeepsSomething(results: seq<AnalysisResult>, location: string)
    requires location in UniqueLocations(results)
    ensures FilteredResultsAsWritten(results, location, NoMinimum) != []
    ensures FilteredResults(results, location, NoMinimum) != []
  {
    var r :| r in results && r.location == location;
    assert r in FilteredResultsAsWritten(results, location, NoMinimum);
    assert r in FilteredResults(results, location, NoMinimum);
  }
}
