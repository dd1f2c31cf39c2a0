/** The resume analysis form
    (src/components/dashboard/resume-analysis-tab.tsx): pick a job
    description, paste a resume, run the analysis action and hand a
    successful result to the dashboard. */
module ResumeAnalysisTab {
  import opened Types
  import opened Actions
  import opened DashboardClient

  const JD_ID_MIN_LENGTH: nat := 1
  const FORM_RESUME_TEXT_MIN_LENGTH: nat := 50
  const JD_ID_MESSAGE := "Please select a job description."
  const FORM_RESUME_TEXT_MESSAGE := "Resume text must be at least 50 characters."

  /** The file name sent with pasted text. */
  const PASTED_FILENAME := "pasted-text.txt"

  datatype ResumeFormValues = ResumeFormValues(jdId: string, resumeText: string)

  /** The form schema: one message per field that is too short, in field
      order. */
  function ResumeFormErrors(values: ResumeFormValues): (errors: seq<FieldError>)
    ensures errors == [] <==> |values.jdId| >= JD_ID_MIN_LENGTH && |values.resumeText| >= FORM_RESUME_TEXT_MIN_LENGTH
    ensures FieldError("jdId", JD_ID_MESSAGE) in errors <==> values.jdId == ""
    ensures FieldError("resumeText", FORM_RESUME_TEXT_MESSAGE) in errors <==> |values.resumeText| < FORM_RESUME_TEXT_MIN_LENGTH
    ensures |errors| <= 2
  {
    (if |values.jdId| < JD_ID_MIN_LENGTH then [FieldError("jdId", JD_ID_MESSAGE)] else [])
    + (if |values.resumeText| < FORM_RESUME_TEXT_MIN_LENGTH then [FieldError("resumeText", FORM_RESUME_TEXT_MESSAGE)] else [])
  }

  /** The form's resume rule is the action's: whatever the form lets through
      the action's own validation accepts, whichever job is sent with it. */
  lemma FormAgreesWithActionSchema(values: ResumeFormValues, jd: JobDescription)
    ensures ResumeFormErrors(values) == [] ==>
      ValidationMessages(AnalysisInput(jd, values.resumeText, PASTED_FILENAME)) == []
    ensures ValidationMessages(AnalysisInput(jd, values.resumeText, PASTED_FILENAME)) == [] ==>
      FieldError("resumeText", FORM_RESUME_TEXT_MESSAGE) !in ResumeFormErrors(values)
  {
  }

  /** `jds.find(jd => jd.id === id)`: the first job description with that
      identifier. */
  function FindJd(jds: seq<JobDescription>, id: string): (found: Option<JobDescription>)
    ensures found.None? <==> forall j :: j in jds ==> j.id != id
    ensures found.Some? ==> found.value.id == id && exists k :: (
      && 0 <= k < |jds| && jds[k] == found.value
      && forall i :: 0 <= i < k ==> jds[i].id != id)
  {
    if jds == [] then None
    else if jds[0].id == id then Some(jds[0])
    else
      var rest := FindJd(jds[1..], id);
      assert forall j :: j in jds[1..] ==> j in jds;
      if rest.Some? then
        var k :| 0 <= k < |jds| - 1 && jds[1..][k] == rest.value
          && forall i :: 0 <= i < k ==> jds[1..][i].id != id;
        assert jds[k + 1] == rest.value;
        assert forall i :: 1 <= i < k + 1 ==> jds[i] == jds[1..][i - 1];
        rest
      else rest
  }

  /** With distinct identifiers the lookup returns the one job description
      that carries the identifier. */
  lemma FindJdFindsTheOne(jds: seq<JobDescription>, jd: JobDescription)
    requires DistinctIds(jds)
    requires jd in jds
    ensures FindJd(jds, jd.id) == Some(jd)
  {
    var found := FindJd(jds, jd.id);
    var k :| 0 <= k < |jds| && jds[k] == found.value
      && forall i :: 0 <= i < k ==> jds[i].id != jd.id;
    var m :| 0 <= m < |jds| && jds[m] == jd;
    if k < m {
      assert jds[k].id != jds[m].id;
    }
  }

  /** The toast the form shows after a submission. */
  datatype Notice =
    | JdNotFound
    | AnalysisComplete(relevanceScore: int, jobRole: string)
    | AnalysisFailed(message: string)

  class ResumeAnalysisForm {
    var jdId: string
    var resumeText: string
    var isAnalyzing: bool
    var notice: Option<Notice>

    /** Both fields start empty and nothing is running. */
    constructor ()
      ensures jdId == "" && resumeText == "" && !isAnalyzing && notice == None
    {
      jdId, resumeText, isAnalyzing, notice := "", "", false, None;
    }

    /** `onSubmit`. The job is looked up among the dashboard's; a missing
        one stops the submission with a notice. Otherwise the action runs on
        the job, the pasted text and the placeholder file name. A success
        goes to the dashboard and clears the resume text but keeps the job;
        a failure shows the action's message and changes nothing else.
        `analysisInput` is the request sent to the action, if one was. */
    method OnSubmit(values: ResumeFormValues, dashboard: Dashboard, responses: ServiceResponses, freshId: string, now: string)
      returns (analysisInput: Option<AnalysisInput>, outcome: Option<ServerActionResult>, calls: seq<ServiceCall>)
      requires dashboard.Valid()
      requires !isAnalyzing  // the submit button is disabled while an analysis runs
      modifies this, dashboard
      ensures dashboard.Valid()
      ensures !isAnalyzing
      ensures dashboard.jds == old(dashboard.jds)
      ensures analysisInput.Some? <==> FindJd(old(dashboard.jds), values.jdId).Some?
      ensures outcome.Some? <==> analysisInput.Some?
      ensures analysisInput.None? ==>
        && calls == []
        && notice == Some(JdNotFound)
        && isAnalyzing == old(isAnalyzing)
        && jdId == old(jdId) && resumeText == old(resumeText)
        && dashboard.results == old(dashboard.results)
        && dashboard.activeTab == old(dashboard.activeTab)
      ensures analysisInput.Some? ==>
        && analysisInput.value == AnalysisInput(FindJd(old(dashboard.jds), values.jdId).value, values.resumeText, PASTED_FILENAME)
        && ActionContract(analysisInput.value, responses, freshId, now, outcome.value, calls)
        && !isAnalyzing
      ensures outcome.Some? && outcome.value.Success? ==>
        && dashboard.results == [outcome.value.data] + old(dashboard.results)
        && dashboard.activeTab == Results
        && jdId == values.jdId && resumeText == ""
        && notice == Some(AnalysisComplete(outcome.value.data.relevanceScore, outcome.value.data.jobRole))
      ensures outcome.Some? && outcome.value.Failure? ==>
        && dashboard.results == old(dashboard.results)
        && dashboard.activeTab == old(dashboard.activeTab)
        && jdId == old(jdId) && resumeText == old(resumeText)
        && notice == Some(AnalysisFailed(outcome.value.error))
    {
      var selected := FindJd(dashboard.jds, values.jdId);
      if selected.None? {
        notice := Some(JdNotFound);
        return None, None, [];
      }
      isAnalyzing := true;
      var input := AnalysisInput(selected.value, values.resumeText, PASTED_FILENAME);
      var result;
      result, calls := AnalyzeResumeAction(input, responses, freshId, now);
      if result.Success? {
        dashboard.HandleAnalysisComplete(result.data);
        notice := Some(AnalysisComplete(result.data.relevanceScore, result.data.jobRole));
        jdId, resumeText := values.jdId, "";
      } else {
        notice := Some(AnalysisFailed(result.error));
      }
      isAnalyzing := false;
      analysisInput, outcome := Some(input), Some(result);
    }
  }
}
