/** The dashboard's page state (src/components/dashboard/dashboard-client.tsx):
    the job descriptions and analysis results held in memory, newest first,
    and the tab on show. */
module DashboardClient {
  import opened Types

  datatype Tab = UploadJd | AnalyzeResume | Results | Analytics

  /** The tab identifiers the page stores in its `activeTab` state. */
  function TabValue(tab: Tab): (value: string)
    ensures value in ["upload-jd", "analyze-resume", "results", "analytics"]
  {
    match tab
    case UploadJd => "upload-jd"
    case AnalyzeResume => "analyze-resume"
    case Results => "results"
    case Analytics => "analytics"
  }

  /** Distinct tabs have distinct identifiers, so the page's string state
      and the `Tab` value determine each other. */
  lemma TabValueInjective(a: Tab, b: Tab)
    requires TabValue(a) == TabValue(b)
    ensures a == b
  {
    assert "upload-jd"[0] != "analyze-resume"[0] && "upload-jd"[0] != "results"[0] && "upload-jd"[0] != "analytics"[0];
    assert |"analyze-resume"| != |"analytics"| && "analyze-resume"[0] != "results"[0] && "results"[0] != "analytics"[0];
  }

  /** No two job descriptions share an identifier. */
  ghost predicate DistinctIds(jds: seq<JobDescription>) {
    forall i, j :: 0 <= i < j < |jds| ==> jds[i].id != jds[j].id
  }

  class Dashboard {
    var jds: seq<JobDescription>
    var results: seq<AnalysisResult>
    var activeTab: Tab

    ghost predicate Valid()
      reads this
    {
      DistinctIds(jds)
    }

    /** The page opens on the upload tab with both lists empty. */
    constructor ()
      ensures Valid()
      ensures jds == [] && results == [] && activeTab == UploadJd
      ensures TabValue(activeTab) == "upload-jd"
    {
      jds := [];
      results := [];
      activeTab := UploadJd;
    }

    /** `handleJdUpload`: the new job description, with its fresh
        identifier, goes in front; the page moves to the analysis tab. */
    method HandleJdUpload(jd: JdDraft, freshId: string)
      requires Valid()
      requires forall j :: j in jds ==> j.id != freshId
      modifies this
      ensures Valid()
      ensures jds == [JobDescription(freshId, jd.role, jd.location, jd.text)] + old(jds)
      ensures results == old(results)
      ensures activeTab == AnalyzeResume && TabValue(activeTab) == "analyze-resume"
    {
      var newJd := JobDescription(freshId, jd.role, jd.location, jd.text);
      jds := [newJd] + jds;
      activeTab := AnalyzeResume;
    }

    /** `handleAnalysisComplete`: the result goes in front; the page moves to
        the results tab. */
    method HandleAnalysisComplete(result: AnalysisResult)
      requires Valid()
      modifies this
      ensures Valid()
      ensures results == [result] + old(results)
      ensures jds == old(jds)
      ensures activeTab == Results && TabValue(activeTab) == "results"
    {
      results := [result] + results;
      activeTab := Results;
    }

    /** The tab list's `onValueChange`. */
    method SelectTab(tab: Tab)
      requires Valid()
      modifies this
      ensures Valid()
      ensures activeTab == tab && jds == old(jds) && results == old(results)
    {
      activeTab := tab;
    }
  }
}
