/** The server action that analyses one resume against one job description
    (src/app/actions.ts). The three model-backed services (skill extraction,
    relevance scoring, feedback generation) are not modelled: the action is
    given, for one run, the response each service would produce, and
    reports the requests it made, in order. */
module Actions {
  import opened Types
  import opened Seqs
  import opened Text

  /** `z.string().min(50, ...)` on the resume text. */
  const RESUME_TEXT_MIN_LENGTH: nat := 50
  const RESUME_TEXT_MESSAGE := "Resume text cannot be empty."
  const OVERLOADED_MESSAGE := "An unexpected error occurred during analysis. The AI model may be overloaded."
  /** Separator between the messages of a failed schema check. */
  const MESSAGE_SEPARATOR := ", "

  datatype AnalysisInput = AnalysisInput(jd: JobDescription, resumeText: string, resumeFilename: string)

  /** What the relevance-scoring service returns. */
  datatype ScoreOutput = ScoreOutput(relevanceScore: int, hardMatchScore: int, semanticMatchScore: int, verdict: string)

  /** A service call either returns a value or throws. */
  datatype Outcome<+T> = Returned(value: T) | Threw

  /** The response each service gives in one run of the action. */
  datatype ServiceResponses = ServiceResponses(
    jdSkills: Outcome<seq<string>>,
    resumeSkills: Outcome<seq<string>>,
    score: Outcome<ScoreOutput>,
    feedback: Outcome<seq<string>>)

  /** A request sent to one of the services. */
  datatype ServiceCall =
    | ExtractSkills(text: string)
    | ScoreResumeRelevance(jobDescriptionText: string, resumeText: string)
    | GenerateActionableFeedback(jobDescription: string, resumeText: string, missingSkills: seq<string>)

  /** `{ success: true, data }` or `{ success: false, error }`. */
  datatype ServerActionResult = Success(data: AnalysisResult) | Failure(error: string)

  /** The messages of the input schema check; empty when the input passes. */
  function ValidationMessages(input: AnalysisInput): (messages: seq<string>)
    ensures messages == [] <==> |input.resumeText| >= RESUME_TEXT_MIN_LENGTH
    ensures forall m :: m in messages ==> m == RESUME_TEXT_MESSAGE
  {
    if |input.resumeText| < RESUME_TEXT_MIN_LENGTH then [RESUME_TEXT_MESSAGE] else []
  }

  /** The three requests issued together by `Promise.all`: skills of the
      job text, skills of the resume text, then the relevance score of the
      pair; never a feedback request. */
  function FanOutCalls(input: AnalysisInput): (calls: seq<ServiceCall>)
    ensures |calls| == 3
    ensures forall c :: c in calls ==> !c.GenerateActionableFeedback?
    ensures calls[0].ExtractSkills? && calls[0].text == input.jd.text
    ensures calls[1].ExtractSkills? && calls[1].text == input.resumeText
    ensures calls[2].ScoreResumeRelevance?
      && calls[2].jobDescriptionText == input.jd.text && calls[2].resumeText == input.resumeText
  {
    [ExtractSkills(input.jd.text),
     ExtractSkills(input.resumeText),
     ScoreResumeRelevance(input.jd.text, input.resumeText)]
  }

  predicate FanOutSucceeded(responses: ServiceResponses) {
    responses.jdSkills.Returned? && responses.resumeSkills.Returned? && responses.score.Returned?
  }

  /** `skills.map(s => s.toLowerCase())`. */
  function LowerAll(skills: seq<string>): (r: seq<string>)
    ensures |r| == |skills|
    ensures forall i :: 0 <= i < |skills| ==> r[i] == Lower(skills[i])
  {
    seq(|skills|, i requires 0 <= i < |skills| => Lower(skills[i]))
  }

  /** `new Set(skills.map(s => s.toLowerCase()))`, in iteration order. */
  function NormalizeSkills(skills: seq<string>): (r: seq<string>)
    ensures forall x :: x in r <==> exists i :: 0 <= i < |skills| && Lower(skills[i]) == x
    ensures NoDuplicates(r)
    ensures InFirstOccurrenceOrder(r, LowerAll(skills))
  {
    DedupFirstOccurrenceOrder(LowerAll(skills));
    Dedup(LowerAll(skills))
  }

  /** The job-description skills, lower-cased and de-duplicated, that no
      resume skill matches case-insensitively. */
  function MissingSkills(jdSkills: seq<string>, resumeSkills: seq<string>): (missing: seq<string>)
    ensures forall x :: x in missing <==>
      && (exists i :: 0 <= i < |jdSkills| && Lower(jdSkills[i]) == x)
      && (forall j :: 0 <= j < |resumeSkills| ==> Lower(resumeSkills[j]) != x)
    ensures NoDuplicates(missing)
    ensures InFirstOccurrenceOrder(missing, LowerAll(jdSkills))
  {
    var resumeSet := NormalizeSkills(resumeSkills);
    var notInResume := (s: string) => s !in resumeSet;
    FilterKeepsNoDuplicates(NormalizeSkills(jdSkills), notInResume);
    FilterKeepsFirstOccurrenceOrder(NormalizeSkills(jdSkills), LowerAll(jdSkills), notInResume);
    Filter(NormalizeSkills(jdSkills), notInResume)
  }

  /** Everything `analyzeResumeAction` promises about one run: the result
      envelope and the service requests, for given service responses, a
      fresh identifier and the current time. */
  ghost predicate ActionContract(
    input: AnalysisInput, responses: ServiceResponses, freshId: string, now: string,
    result: ServerActionResult, calls: seq<ServiceCall>)
  {
    if |input.resumeText| < RESUME_TEXT_MIN_LENGTH then
      // the schema check fails before any service is called
      && calls == []
      && result == Failure(Join(ValidationMessages(input), MESSAGE_SEPARATOR))
    else if !FanOutSucceeded(responses) then
      // one of the three parallel calls threw: no partial result
      && calls == FanOutCalls(input)
      && result == Failure(OVERLOADED_MESSAGE)
    else
      var jdSkills := responses.jdSkills.value;
      var resumeSkills := responses.resumeSkills.value;
      var score := responses.score.value;
      var missing := MissingSkills(jdSkills, resumeSkills);
      // feedback is requested exactly when a skill is missing, with those skills
      && calls == FanOutCalls(input)
                  + (if missing == [] then []
                     else [GenerateActionableFeedback(input.jd.text, input.resumeText, missing)])
      && (if missing != [] && responses.feedback.Threw? then
            result == Failure(OVERLOADED_MESSAGE)
          else
            && result.Success?
            && result.data.id == freshId
            && result.data.analyzedAt == now
            && result.data.relevanceScore == score.relevanceScore
            && result.data.hardMatchScore == score.hardMatchScore
            && result.data.semanticMatchScore == score.semanticMatchScore
            && result.data.verdict == score.verdict
            && result.data.jobRole == input.jd.role
            && result.data.location == input.jd.location
            && result.data.resumeFilename == input.resumeFilename
            && result.data.jdSkills == jdSkills
            && result.data.resumeSkills == NormalizeSkills(resumeSkills)
            && result.data.missingSkills == missing
            && result.data.suggestions == (if missing == [] then [] else responses.feedback.value))
  }

  /** `analyzeResumeAction`: validate, fan out, compute the skill gap,
      request feedback if needed, assemble the record. */
  method AnalyzeResumeAction(input: AnalysisInput, responses: ServiceResponses, freshId: string, now: string)
    returns (result: ServerActionResult, calls: seq<ServiceCall>)
    ensures ActionContract(input, responses, freshId, now, result, calls)
  {
    var messages := ValidationMessages(input);
    if messages != [] {
      return Failure(Join(messages, MESSAGE_SEPARATOR)), [];
    }

    calls := FanOutCalls(input);
    if !FanOutSucceeded(responses) {
      return Failure(OVERLOADED_MESSAGE), calls;
    }
    var jdSkillsData := responses.jdSkills.value;
    var resumeSkillsData := responses.resumeSkills.value;
    var scoreData := responses.score.value;

    var resumeSkills := NormalizeSkills(resumeSkillsData);
    var missingSkills := MissingSkills(jdSkillsData, resumeSkillsData);

    var suggestions: seq<string> := [];
    if |missingSkills| > 0 {
      calls := calls + [GenerateActionableFeedback(input.jd.text, input.resumeText, missingSkills)];
      if responses.feedback.Threw? {
        return Failure(OVERLOADED_MESSAGE), calls;
      }
      suggestions := responses.feedback.value;
    }

    var analysisResult := AnalysisResult(
      freshId,
      scoreData.relevanceScore, scoreData.hardMatchScore, scoreData.semanticMatchScore, scoreData.verdict,
      input.jd.role, input.jd.location, input.resumeFilename,
      jdSkillsData, resumeSkills, missingSkills, suggestions,
      now);
    result := Success(analysisResult);
  }

  /** A resume shorter than the minimum is refused with the fixed message,
      and no service is called. */
  lemma ShortResumeRefused(
    input: AnalysisInput, responses: ServiceResponses, freshId: string, now: string,
    result: ServerActionResult, calls: seq<ServiceCall>)
    requires ActionContract(input, responses, freshId, now, result, calls)
    requires |input.resumeText| < RESUME_TEXT_MIN_LENGTH
    ensures calls == [] && result == Failure(RESUME_TEXT_MESSAGE)
  {
    assert ValidationMessages(input) == [RESUME_TEXT_MESSAGE];
  }

  /** Any service that throws turns the whole run into the fixed
      "overloaded" failure with no data. */
  lemma ServiceFailureIsOverloaded(
    input: AnalysisInput, responses: ServiceResponses, freshId: string, now: string,
    result: ServerActionResult, calls: seq<ServiceCall>)
    requires ActionContract(input, responses, freshId, now, result, calls)
    requires |input.resumeText| >= RESUME_TEXT_MIN_LENGTH
    requires responses.jdSkills.Threw? || responses.resumeSkills.Threw? || responses.score.Threw?
             || (FanOutSucceeded(responses) && responses.feedback.Threw?
                 && MissingSkills(responses.jdSkills.value, responses.resumeSkills.value) != [])
    ensures result == Failure(OVERLOADED_MESSAGE)
  {
  }

  /** The feedback service is called at most once, exactly when some skill
      is missing, and then with exactly the missing skills; without a call
      the suggestions are empty. */
  lemma FeedbackOnlyWhenSkillsMissing(
    input: AnalysisInput, responses: ServiceResponses, freshId: string, now: string,
    result: ServerActionResult, calls: seq<ServiceCall>)
    requires ActionContract(input, responses, freshId, now, result, calls)
    ensures result.Success? ==>
      forall c :: c in calls && c.GenerateActionableFeedback? ==> c.missingSkills == result.data.missingSkills
    ensures result.Success? ==>
      && (result.data.missingSkills == [] <==> |calls| == 3)
      && (|calls| == 3 ==> result.data.suggestions == [])
      && (|calls| == 4 ==> calls[3] == GenerateActionableFeedback(input.jd.text, input.resumeText, result.data.missingSkills))
  {
  }

  /** With the same input and service responses, two runs agree on every
      request and on every field of the result except the identifier and
      the timestamp. */
  lemma ActionDeterministic(
    input: AnalysisInput, responses: ServiceResponses,
    id1: string, now1: string, result1: ServerActionResult, calls1: seq<ServiceCall>,
    id2: string, now2: string, result2: ServerActionResult, calls2: seq<ServiceCall>)
    requires ActionContract(input, responses, id1, now1, result1, calls1)
    requires ActionContract(input, responses, id2, now2, result2, calls2)
    ensures calls1 == calls2
    ensures result1.Success? <==> result2.Success?
    ensures result1.Failure? ==> result1 == result2
    ensures result1.Success? ==> result1.data.(id := id2, analyzedAt := now2) == result2.data
  {
  }

  /** Every missing skill is in lower case and is the lower-case form of a
      job-description skill: it is a job skill compared case-insensitively. */
  lemma MissingSkillsAreLowerCaseJdSkills(jdSkills: seq<string>, resumeSkills: seq<string>, x: string)
    requires x in MissingSkills(jdSkills, resumeSkills)
    ensures Lower(x) == x
    ensures exists i :: 0 <= i < |jdSkills| && Lower(jdSkills[i]) == Lower(x)
  {
    var i :| 0 <= i < |jdSkills| && Lower(jdSkills[i]) == x;
    LowerIdempotent(jdSkills[i]);
  }

  lemma LowerAllExamples()
    ensures LowerAll(["Python", "SQL", "Docker"]) == ["python", "sql", "docker"]
    ensures LowerAll(["python", "Kubernetes"]) == ["python", "kubernetes"]
  {
    assert Lower("Python") == "python";
    assert Lower("SQL") == "sql";
    assert Lower("Docker") == "docker";
    assert Lower("python") == "python";
    assert Lower("Kubernetes") == "kubernetes";
  }

  lemma DedupExamples()
    ensures Dedup(["python", "sql", "docker"]) == ["python", "sql", "docker"]
    ensures Dedup(["python", "kubernetes"]) == ["python", "kubernetes"]
  {
    var l := ["python", "sql", "docker"];
    assert l[..2] == ["python", "sql"] && l[..2][..1] == ["python"];
    assert "sql" !in ["python"] by { assert |"sql"| != |"python"|; }
    assert "docker" !in ["python", "sql"] by {
      assert "docker"[0] != "python"[0] && |"docker"| != |"sql"|;
    }
    assert ["python", "kubernetes"][..1] == ["python"];
    assert "kubernetes" !in ["python"] by { assert |"kubernetes"| != |"python"|; }
  }

  lemma NormalizeSkillsExamples()
    ensures NormalizeSkills(["Python", "SQL", "Docker"]) == ["python", "sql", "docker"]
    ensures NormalizeSkills(["python", "Kubernetes"]) == ["python", "kubernetes"]
  {
    LowerAllExamples();
    DedupExamples();
  }

  lemma ExampleSkillsDistinct()
    ensures "sql" !in ["python", "kubernetes"]
    ensures "docker" !in ["python", "kubernetes"]
  {
    assert |"sql"| != |"python"| && |"sql"| != |"kubernetes"|;
    assert "docker"[0] != "python"[0] && |"docker"| != |"kubernetes"|;
  }

  lemma FilterExampleSkills(keep: string -> bool)
    requires !keep("python") && keep("sql") && keep("docker")
    ensures Filter(["python", "sql", "docker"], keep) == ["sql", "docker"]
  {
    assert ["python", "sql", "docker"][1..] == ["sql", "docker"];
    assert ["sql", "docker"][1..] == ["docker"];
  }

  /** A worked example: JD skills Python, SQL, Docker against resume skills
      python, Kubernetes leave sql and docker missing. */
  lemma MissingSkillsExample()
    ensures MissingSkills(["Python", "SQL", "Docker"], ["python", "Kubernetes"]) == ["sql", "docker"]
  {
    var resumeSet := NormalizeSkills(["python", "Kubernetes"]);
    NormalizeSkillsExamples();
    ExampleSkillsDistinct();
    FilterExampleSkills((s: string) => s !in resumeSet);
  }
}
