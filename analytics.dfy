/** The two charts of the analytics tab
    (src/components/dashboard/analytics-tab.tsx): a histogram of relevance
    scores over four fixed bins, and a tally of the verdicts High, Medium
    and Low. Both are computed by loops that increment counters in place. */
module Analytics {
  import opened Types
  import opened Seqs

  /** One bar of the score histogram. */
  datatype ScoreBin = ScoreBin(name: string, count: nat)

  const BIN_NAMES: seq<string> := ["0-25%", "26-50%", "51-75%", "76-100%"]
  /** The score range each label names, bounds included. */
  const BIN_LOW: seq<int> := [0, 26, 51, 76]
  const BIN_HIGH: seq<int> := [25, 50, 75, 100]

  /** The bin a score is counted in: the first bin whose upper bound the
      score does not exceed, the last one otherwise. */
  function BinOf(score: int): (k: nat)
    ensures k < 4
    ensures score < BIN_LOW[0] ==> k == 0
    ensures score > BIN_HIGH[3] ==> k == 3
  {
    if score <= 25 then 0
    else if score <= 50 then 1
    else if score <= 75 then 2
    else 3
  }

  /** On scores from 0 to 100 the binning agrees with the bin labels. */
  lemma BinMatchesLabel(score: int, k: nat)
    requires 0 <= score <= 100 && k < 4
    ensures BinOf(score) == k <==> BIN_LOW[k] <= score <= BIN_HIGH[k]
  {
  }

  /** A higher score never lands in a lower bin. */
  lemma BinOfMonotone(a: int, b: int)
    requires a <= b
    ensures BinOf(a) <= BinOf(b)
  {
  }

  /** How many results fall in bin `k`. */
  function CountInBin(results: seq<AnalysisResult>, k: nat): (n: nat)
    ensures n <= |results|
  {
    if results == [] then 0
    else
      CountInBin(results[..|results| - 1], k)
      + (if BinOf(results[|results| - 1].relevanceScore) == k then 1 else 0)
  }

  /** Every result is counted in exactly one bin. */
  lemma {:induction false} BinCountsPartition(results: seq<AnalysisResult>)
    ensures CountInBin(results, 0) + CountInBin(results, 1) + CountInBin(results, 2) + CountInBin(results, 3)
            == |results|
  {
    if results != [] {
      BinCountsPartition(results[..|results| - 1]);
    }
  }

  /** Counting one more result adds one to its own bin and nothing to the
      others. */
  lemma CountInBinStep(results: seq<AnalysisResult>, i: nat, k: nat)
    requires i < |results|
    ensures CountInBin(results[..i + 1], k)
            == CountInBin(results[..i], k) + (if BinOf(results[i].relevanceScore) == k then 1 else 0)
  {
    assert results[..i + 1][..i] == results[..i];
  }

  /** `scoreDistribution`: four bins, named in order, each holding the
      number of results whose score falls in it. */
  method ScoreDistribution(results: seq<AnalysisResult>) returns (bins: seq<ScoreBin>)
    ensures |bins| == 4
    ensures forall k :: 0 <= k < 4 ==> bins[k] == ScoreBin(BIN_NAMES[k], CountInBin(results, k))
    ensures bins[0].count + bins[1].count + bins[2].count + bins[3].count == |results|
  {
    var b := new ScoreBin[] [ScoreBin(BIN_NAMES[0], 0), ScoreBin(BIN_NAMES[1], 0), ScoreBin(BIN_NAMES[2], 0), ScoreBin(BIN_NAMES[3], 0)];
    for i := 0 to |results|
      invariant forall k :: 0 <= k < 4 ==> b[k] == ScoreBin(BIN_NAMES[k], CountInBin(results[..i], k))
    {
      forall k | 0 <= k < 4 {
        CountInBinStep(results, i, k);
      }
      var score := results[i].relevanceScore;
      if score <= 25 {
        b[0] := b[0].(count := b[0].count + 1);
      } else if score <= 50 {
        b[1] := b[1].(count := b[1].count + 1);
      } else if score <= 75 {
        b[2] := b[2].(count := b[2].count + 1);
      } else {
        b[3] := b[3].(count := b[3].count + 1);
      }
    }
    assert results[..|results|] == results;
    BinCountsPartition(results);
    bins := b[..];
  }

  /** One slice of the verdict pie chart. */
  datatype VerdictSlice = VerdictSlice(name: string, value: nat)

  /** The verdicts the chart counts, in chart order; matching is exact. */
  const TALLIED_VERDICTS: seq<string> := ["High", "Medium", "Low"]

  /** How many results carry exactly this verdict. */
  function CountVerdict(results: seq<AnalysisResult>, verdict: string): (n: nat)
    ensures n <= |results|
  {
    if results == [] then 0
    else
      CountVerdict(results[..|results| - 1], verdict)
      + (if results[|results| - 1].verdict == verdict then 1 else 0)
  }

  function TalliedTotal(results: seq<AnalysisResult>): nat {
    CountVerdict(results, "High") + CountVerdict(results, "Medium") + CountVerdict(results, "Low")
  }

  /** The three counters together never exceed the number of results, and
      account for all of them exactly when every verdict is spelled exactly
      High, Medium or Low. */
  lemma {:induction false} TallyAccountsForExactVerdicts(results: seq<AnalysisResult>)
    ensures TalliedTotal(results) <= |results|
    ensures TalliedTotal(results) == |results| <==> forall r :: r in results ==> r.verdict in TALLIED_VERDICTS
  {
    if results != [] {
      var init := results[..|results| - 1];
      TallyAccountsForExactVerdicts(init);
      assert results == init + [results[|results| - 1]];
    }
  }

  function SliceNames(slices: seq<VerdictSlice>): (names: seq<string>)
    ensures |names| == |slices|
    ensures forall i :: 0 <= i < |slices| ==> names[i] == slices[i].name
  {
    seq(|slices|, i requires 0 <= i < |slices| => slices[i].name)
  }

  function SliceTotal(slices: seq<VerdictSlice>): nat {
    if slices == [] then 0 else slices[0].value + SliceTotal(slices[1..])
  }

  predicate NonEmptySlice(s: VerdictSlice) {
    s.value > 0
  }

  /** The chart's slices for the given High, Medium and Low counters: the
      three in that order, those at zero dropped. */
  function VerdictSlices(high: nat, medium: nat, low: nat): seq<VerdictSlice> {
    Filter([VerdictSlice("High", high), VerdictSlice("Medium", medium), VerdictSlice("Low", low)], NonEmptySlice)
  }

  lemma {:induction false} SliceTotalAppend(a: seq<VerdictSlice>, b: seq<VerdictSlice>)
    ensures SliceTotal(a + b) == SliceTotal(a) + SliceTotal(b)
  {
    if a == [] {
      assert a + b == b;
    } else {
      assert (a + b)[1..] == a[1..] + b;
      SliceTotalAppend(a[1..], b);
    }
  }

  lemma SliceNamesAppend(a: seq<VerdictSlice>, b: seq<VerdictSlice>)
    ensures SliceNames(a + b) == SliceNames(a) + SliceNames(b)
  {
    assert |SliceNames(a + b)| == |SliceNames(a) + SliceNames(b)|;
    forall i | 0 <= i < |a + b| ensures SliceNames(a + b)[i] == (SliceNames(a) + SliceNames(b))[i] {
      if i >= |a| { assert (a + b)[i] == b[i - |a|]; }
    }
  }

  lemma VerdictSlicesShape(high: nat, medium: nat, low: nat)
    ensures VerdictSlices(high, medium, low)
            == (if high > 0 then [VerdictSlice("High", high)] else [])
               + (if medium > 0 then [VerdictSlice("Medium", medium)] else [])
               + (if low > 0 then [VerdictSlice("Low", low)] else [])
  {
    var h := VerdictSlice("High", high);
    var m := VerdictSlice("Medium", medium);
    var l := VerdictSlice("Low", low);
    var all := [h, m, l];
    assert all[1..] == [m, l];
    assert all[1..][1..] == [l];
    assert all[1..][1..][1..] == [];
    var hs := if high > 0 then [h] else [];
    var ms := if medium > 0 then [m] else [];
    var ls := if low > 0 then [l] else [];
    assert Filter([l], NonEmptySlice) == ls;
    assert Filter([m, l], NonEmptySlice) == ms + ls;
    assert VerdictSlices(high, medium, low) == hs + (ms + ls);
    assert hs + (ms + ls) == hs + ms + ls;
  }

  /** The slices' names: High, Medium, Low in that order, each present
      exactly when its counter is positive. */
  lemma VerdictSliceNames(high: nat, medium: nat, low: nat)
    ensures SliceNames(VerdictSlices(high, medium, low))
            == (if high > 0 then ["High"] else [])
               + (if medium > 0 then ["Medium"] else [])
               + (if low > 0 then ["Low"] else [])
  {
    VerdictSlicesShape(high, medium, low);
    var hs := if high > 0 then [VerdictSlice("High", high)] else [];
    var ms := if medium > 0 then [VerdictSlice("Medium", medium)] else [];
    var ls := if low > 0 then [VerdictSlice("Low", low)] else [];
    SliceNamesAppend(hs + ms, ls);
    SliceNamesAppend(hs, ms);
  }

  /** No slice is lost or invented: the slices add up to the three counters. */
  lemma VerdictSliceTotal(high: nat, medium: nat, low: nat)
    ensures SliceTotal(VerdictSlices(high, medium, low)) == high + medium + low
  {
    VerdictSlicesShape(high, medium, low);
    var hs := if high > 0 then [VerdictSlice("High", high)] else [];
    var ms := if medium > 0 then [VerdictSlice("Medium", medium)] else [];
    var ls := if low > 0 then [VerdictSlice("Low", low)] else [];
    SliceTotalAppend(hs + ms, ls);
    SliceTotalAppend(hs, ms);
  }

  /** The positions of the three names in the chart order. */
  lemma TalliedIndices()
    ensures FirstIndex(TALLIED_VERDICTS, "High") == 0
    ensures FirstIndex(TALLIED_VERDICTS, "Medium") == 1
    ensures FirstIndex(TALLIED_VERDICTS, "Low") == 2
  {
    assert "High"[0] != "Medium"[0] && "High"[0] != "Low"[0] && "Medium"[0] != "Low"[0];
  }

  /** The pie chart's data for a list of results, as a value: the counts of
      the three exact verdicts, with empty slices dropped. */
  function TalliedSlices(results: seq<AnalysisResult>): seq<VerdictSlice> {
    VerdictSlices(CountVerdict(results, "High"), CountVerdict(results, "Medium"), CountVerdict(results, "Low"))
  }

  lemma TalliedSlicesCounts(results: seq<AnalysisResult>)
    ensures var slices := TalliedSlices(results);
      forall i :: 0 <= i < |slices| ==>
        && slices[i].name in TALLIED_VERDICTS
        && slices[i].value == CountVerdict(results, slices[i].name)
        && slices[i].value > 0
  {
    VerdictSlicesShape(CountVerdict(results, "High"), CountVerdict(results, "Medium"), CountVerdict(results, "Low"));
  }

  lemma TalliedSlicesPresence(results: seq<AnalysisResult>)
    ensures forall v :: v in TALLIED_VERDICTS ==>
      (CountVerdict(results, v) > 0 <==> v in SliceNames(TalliedSlices(results)))
  {
    VerdictSliceNames(CountVerdict(results, "High"), CountVerdict(results, "Medium"), CountVerdict(results, "Low"));
    TalliedIndices();
  }

  lemma FilterChartOrder(keep: string -> bool)
    ensures Filter(TALLIED_VERDICTS, keep)
            == (if keep("High") then ["High"] else [])
               + (if keep("Medium") then ["Medium"] else [])
               + (if keep("Low") then ["Low"] else [])
  {
    assert TALLIED_VERDICTS[1..] == ["Medium", "Low"] && TALLIED_VERDICTS[1..][1..] == ["Low"];
  }

  /** The slice names are the chart order with the empty counters' names
      dropped, so they keep the chart order. */
  lemma VerdictSliceOrder(high: nat, medium: nat, low: nat)
    ensures InFirstOccurrenceOrder(SliceNames(VerdictSlices(high, medium, low)), TALLIED_VERDICTS)
  {
    VerdictSliceNames(high, medium, low);
    TalliedIndices();
    var counted := (v: string) => (v == "High" && high > 0) || (v == "Medium" && medium > 0) || (v == "Low" && low > 0);
    assert counted("High") == (high > 0) && counted("Medium") == (medium > 0) && counted("Low") == (low > 0);
    FilterChartOrder(counted);
    FilterKeepsFirstOccurrenceOrder(TALLIED_VERDICTS, TALLIED_VERDICTS, counted);
  }

  lemma TalliedSlicesOrder(results: seq<AnalysisResult>)
    ensures InFirstOccurrenceOrder(SliceNames(TalliedSlices(results)), TALLIED_VERDICTS)
  {
    VerdictSliceOrder(CountVerdict(results, "High"), CountVerdict(results, "Medium"), CountVerdict(results, "Low"));
  }

  lemma TalliedSlicesTotal(results: seq<AnalysisResult>)
    ensures SliceTotal(TalliedSlices(results)) <= |results|
  {
    VerdictSliceTotal(CountVerdict(results, "High"), CountVerdict(results, "Medium"), CountVerdict(results, "Low"));
    TallyAccountsForExactVerdicts(results);
  }

  /** `verdictDistribution`: a slice for each of High, Medium, Low with a
      non-zero count, in that order, carrying that count. */
  method VerdictDistribution(results: seq<AnalysisResult>) returns (slices: seq<VerdictSlice>)
    ensures forall i :: 0 <= i < |slices| ==>
      && slices[i].name in TALLIED_VERDICTS
      && slices[i].value == CountVerdict(results, slices[i].name)
      && slices[i].value > 0
    ensures forall v :: v in TALLIED_VERDICTS ==>
      (CountVerdict(results, v) > 0 <==> v in SliceNames(slices))
    ensures InFirstOccurrenceOrder(SliceNames(slices), TALLIED_VERDICTS)
    ensures SliceTotal(slices) <= |results|
  {
    var verdicts := map["High" := 0, "Medium" := 0, "Low" := 0];
    for i := 0 to |results|
      invariant verdicts.Keys == {"High", "Medium", "Low"}
      invariant forall v :: v in verdicts ==> verdicts[v] == CountVerdict(results[..i], v)
    {
      assert results[..i + 1][..i] == results[..i];
      var v := results[i].verdict;
      if v in verdicts {
        verdicts := verdicts[v := verdicts[v] + 1];
      }
    }
    assert results[..|results|] == results;
    slices := VerdictSlices(verdicts["High"], verdicts["Medium"], verdicts["Low"]);
    assert slices == TalliedSlices(results);
    TalliedSlicesCounts(results);
    TalliedSlicesPresence(results);
    TalliedSlicesOrder(results);
    TalliedSlicesTotal(results);
  }
}
