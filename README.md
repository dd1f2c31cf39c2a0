# Resume Insights: a Dafny model of the analysis workflow and dashboard

Resume Insights is a Next.js application. A recruiter uploads job descriptions, pastes candidate resumes and gets an analysis of each resume against one job. The analysis holds:

- a relevance score and its hard-match and semantic-match parts;
- a High, Medium or Low verdict;
- the skills the job asks for that the resume lacks;
- improvement suggestions.

The dashboard lists the analyses with location and score filters and charts them.

This project models the deterministic part of that system in Dafny:

- **The server action `analyzeResumeAction`** (module `Actions`).
  - It validates the input and calls three AI services in parallel: skill extraction twice and relevance scoring.
  - It lower-cases and de-duplicates the skills, and computes the missing skills in first-occurrence order.
  - It calls the feedback service only when a skill is missing, then assembles the analysis record.
  - Every failure is reported as a `{ success: false, error }` envelope.
  - The AI services are not modelled: their answers are given as `ServiceResponses` values, each either returned or thrown. The method also returns the list of requests it made, so the contract can say which services were asked what, and when.
  - The generated identifier and the timestamp are parameters.
- **The dashboard page state** (module `DashboardClient`): a class holding the job descriptions, the results and the active tab, with the two callbacks that prepend an entry and switch tabs.
- **The two forms** (modules `JdUploadTab` and `ResumeAnalysisTab`):
  - their validation schemas;
  - their submit handlers, as classes whose methods update the form fields and the dashboard.
  - The resume form looks up the chosen job, runs the action and routes its outcome.
- **The results tab** (module `ResultsTab`): the location and minimum-score filter, and the list of locations the picker offers.
- **The analytics tab** (module `Analytics`): the score histogram, computed by a loop over an array of four bins, and the verdict pie chart, computed by a loop over a map of counters.
- **The result card** (module `ResultCard`): the verdict badge style and the score bar colour.

Shared pieces:

- `Types` holds the records.
- `Seqs` holds the array idioms: `filter`, `Array.from(new Set(xs))`, first-occurrence order and subsequences.
- `Text` holds `toLowerCase` and `join`.

## Model

| member | source | states |
|---|---|---|
| Actions.ValidationMessages | src/app/actions.ts:9-18 | The input is refused exactly when the resume text is shorter than 50 characters, and the only message is "Resume text cannot be empty.". |
| Actions.LowerAll | src/app/actions.ts:39-40 | `skills.map(s => s.toLowerCase())` keeps the length, and each entry is the lower-cased skill at the same position. |
| Actions.NormalizeSkills | src/app/actions.ts:39-40 | The normalised skills are exactly the lower-cased extracted skills. Each appears once, in order of first appearance. |
| Actions.MissingSkills | src/app/actions.ts:39-42 | A skill is missing iff it is the lower-case form of some job skill and of no resume skill. There are no duplicates, and the order is the job skills' first-occurrence order. |
| Actions.AnalyzeResumeAction | src/app/actions.ts:26-80 | For every combination of service responses, it fixes the requests made and the envelope returned. A short resume gets the schema message and no calls. Any thrown service gets the fixed "overloaded" message. Otherwise the result holds each field of the record: scores and verdict from the scoring service, role and location from the job, the job's skills as extracted, the normalised resume skills, the missing skills, and suggestions that are empty when nothing is missing. |
| Actions.ShortResumeRefused | src/app/actions.ts:16-28 | A resume under 50 characters is refused with exactly "Resume text cannot be empty." before any service is called. |
| Actions.ServiceFailureIsOverloaded | src/app/actions.ts:30-51 | If any of the three parallel services throws, or the feedback service throws when it is needed, the result is the fixed "overloaded" failure and carries no data. |
| Actions.FeedbackOnlyWhenSkillsMissing | src/app/actions.ts:44-51 | On success there is a feedback request exactly when some skill is missing, and it carries exactly the missing skills. Without one the suggestions are empty. |
| Actions.ActionDeterministic | src/app/actions.ts:53-64 | Two runs on the same input and responses make the same requests. Their results agree on every field except the generated identifier and the timestamp. |
| Actions.MissingSkillsAreLowerCaseJdSkills | src/app/actions.ts:39-42 | Every missing skill is in lower case and matches a job skill case-insensitively. |
| Actions.MissingSkillsExample | src/app/actions.ts:39-42 | Job skills Python, SQL and Docker against resume skills python and Kubernetes leave exactly sql then docker missing. |
| Actions.FanOutCalls | src/app/actions.ts:30-37 | The parallel step makes exactly three requests and no feedback request. They are the job text's skills, the resume text's skills, then the score of the resume against the job text. |
| Seqs.Filter | src/app/actions.ts:42 | `filter` keeps exactly the elements satisfying the predicate and never lengthens the list. |
| Seqs.FilterMultiset | src/components/dashboard/results-tab.tsx:20-28 | `filter` keeps every occurrence of each element satisfying the predicate and drops every other element, so the multiset of the result is the passing part of the input's. |
| Seqs.FilterIsSubsequence | src/components/dashboard/results-tab.tsx:20-28 | `filter` returns a subsequence of its input: the kept elements stay in their original order. |
| Seqs.Dedup | src/app/actions.ts:39-40 | A JavaScript `Set` turned back into an array has the same members as the list, with no duplicates. |
| Seqs.DedupFirstOccurrenceOrder | src/components/dashboard/results-tab.tsx:31-34 | That array lists each value at the position of its first occurrence, in order. |
| Seqs.FilterKeepsFirstOccurrenceOrder | src/app/actions.ts:42 | Filtering a list that is in first-occurrence order keeps it in that order. |
| Text.Lower | src/app/actions.ts:39-40 | Lower-casing keeps the length and leaves no upper-case ASCII letter. Each upper-case letter becomes its lower-case partner, and every other character is kept. |
| Text.Join | src/app/actions.ts:72-73 | Joining no messages gives the empty string, and joining one message gives that message. |
| Analytics.BinOf | src/components/dashboard/analytics-tab.tsx:49-54 | Every score lands in one of the four bins. Scores below 0 land in the first and scores above 100 in the last. |
| Analytics.BinMatchesLabel | src/components/dashboard/analytics-tab.tsx:43-54 | On 0 to 100, a score lands in a bin exactly when the bin's label range contains it. |
| Analytics.BinOfMonotone | src/components/dashboard/analytics-tab.tsx:49-54 | A higher score never lands in a lower bin. |
| Analytics.BinCountsPartition | src/components/dashboard/analytics-tab.tsx:49-54 | The four bin counts add up to the number of results. |
| Analytics.ScoreDistribution | src/components/dashboard/analytics-tab.tsx:42-56 | There are four bins with their labels in order. Each holds the number of results in its range, and together they hold every result. |
| Analytics.TallyAccountsForExactVerdicts | src/components/dashboard/analytics-tab.tsx:59-64 | The three counters never exceed the number of results. They account for every result exactly when every verdict is spelled exactly High, Medium or Low. |
| Analytics.VerdictSliceNames | src/components/dashboard/analytics-tab.tsx:65-69 | The slices are High, Medium and Low in that order, each present exactly when its counter is positive. |
| Analytics.VerdictSliceTotal | src/components/dashboard/analytics-tab.tsx:65-69 | Dropping the empty slices loses nothing: the slices add up to the three counters. |
| Analytics.VerdictSliceOrder | src/components/dashboard/analytics-tab.tsx:65-69 | Dropping the empty slices keeps the remaining names in chart order. |
| Analytics.VerdictDistribution | src/components/dashboard/analytics-tab.tsx:58-70 | Each slice names a tallied verdict and carries its exact, positive count. A verdict has a slice iff its count is positive. Slices are in chart order and never total more than the results. |
| ResultCard.VerdictVariant | src/components/dashboard/analysis-result-card.tsx:23-34 | The lower-cased verdict high gets the default badge, medium secondary and low destructive. Every other verdict gets outline. |
| ResultCard.VerdictVariantIgnoresCase | src/components/dashboard/analysis-result-card.tsx:24 | Two verdicts that lower-case alike get the same badge. |
| ResultCard.VerdictVariantExamples | src/components/dashboard/analysis-result-card.tsx:23-34 | High and HIGH give default, Medium and medium secondary, Low and LOW destructive, and Unknown outline. |
| ResultCard.BadgeAndChartDisagreeOnCase | src/components/dashboard/analysis-result-card.tsx:24-26 | "high" gets the High badge, yet the verdict chart does not count it. |
| ResultCard.ProgressColorFor | src/components/dashboard/analysis-result-card.tsx:36-40 | Green exactly above 75, red exactly at 50 or below, and yellow in between. |
| ResultCard.ProgressColorMonotone | src/components/dashboard/analysis-result-card.tsx:36-40 | A higher score never gets a worse colour. |
| ResultCard.ProgressColorMatchesBins | src/components/dashboard/analysis-result-card.tsx:36-40 | Red covers the histogram's two lower bins, yellow the third and green the top one. |
| ResultsTab.FilteredResultsAsWritten | src/components/dashboard/results-tab.tsx:19-29 | As written, the filter keeps a subsequence of the results. A result is kept iff its location equals the filter (or the filter is empty) and its score meets the minimum (or the minimum is empty). Every occurrence of a kept result is kept. |
| ResultsTab.AllLocationsCounterexample | src/components/dashboard/results-tab.tsx:21-23 | As written, choosing "All Locations" hides a result located in Pune. |
| ResultsTab.FilteredResults | src/components/dashboard/results-tab.tsx:19-29 | With "All Locations" meaning no location filter, a result is kept iff it passes both filters. The kept list is a subsequence of the results, and every occurrence of a kept result is kept. |
| ResultsTab.NoFilterKeepsEverythingAsWritten | src/components/dashboard/results-tab.tsx:19-29 | As written, an empty location filter with no minimum returns the results unchanged. |
| ResultsTab.NoFilterKeepsEverything | src/components/dashboard/results-tab.tsx:21-23 | With no location (empty or "All Locations") and no minimum, every result is kept, in order. |
| ResultsTab.KeptResultsSatisfyFilters | src/components/dashboard/results-tab.tsx:21-26 | A kept result is at the chosen location and scores at least the minimum. A minimum that does not parse keeps nothing. |
| ResultsTab.Locations | src/components/dashboard/results-tab.tsx:32 | `results.map(r => r.location)` keeps the length, and each entry is the location of the result at the same position. |
| ResultsTab.UniqueLocations | src/components/dashboard/results-tab.tsx:31-34 | The picker offers each result location once, only those locations, in order of first appearance. |
| ResultsTab.OfferedLocationKeepsSomething | src/components/dashboard/results-tab.tsx:31-34 | Picking an offered location keeps at least one result, in both the written and the corrected filter. |
| DashboardClient.TabValue | src/components/dashboard/dashboard-client.tsx:15-25 | Each tab is one of the four identifiers "upload-jd", "analyze-resume", "results" and "analytics". |
| DashboardClient.TabValueInjective | src/components/dashboard/dashboard-client.tsx:31-46 | Distinct tabs have distinct identifiers, so the tab value stands for the page's string state without loss. |
| DashboardClient.Dashboard.constructor | src/components/dashboard/dashboard-client.tsx:13-15 | The page opens on the upload tab, whose identifier is "upload-jd", with no job descriptions and no results. |
| DashboardClient.Dashboard.HandleJdUpload | src/components/dashboard/dashboard-client.tsx:17-21 | The new job, with its fresh identifier, goes in front of the list, and identifiers stay distinct. Results are unchanged and the analysis tab ("analyze-resume") opens. |
| DashboardClient.Dashboard.HandleAnalysisComplete | src/components/dashboard/dashboard-client.tsx:23-26 | The result goes in front of the list. Jobs are unchanged and the results tab ("results") opens. |
| DashboardClient.Dashboard.SelectTab | src/components/dashboard/dashboard-client.tsx:29 | Only the active tab changes. |
| JdUploadTab.JdFormErrors | src/components/dashboard/jd-upload-tab.tsx:28-32 | The form is accepted iff the role has at least 2 characters, the location at least 1 and the text at least 50. Each short field gets its own message. |
| JdUploadTab.AnyNonEmptyLocationAccepted | src/components/dashboard/jd-upload-tab.tsx:30 | A location the picker does not offer passes the schema as well. |
| JdUploadTab.JdUploadForm.constructor | src/components/dashboard/jd-upload-tab.tsx:39-46 | The role, location and text fields all start empty. |
| JdUploadTab.JdUploadForm.OnSubmit | src/components/dashboard/jd-upload-tab.tsx:48-51 | The values reach the dashboard unchanged, as a new job in front with a fresh identifier. Every field is then reset to empty. |
| ResumeAnalysisTab.ResumeFormErrors | src/components/dashboard/resume-analysis-tab.tsx:31-34 | The form is accepted iff a job is chosen and the resume has at least 50 characters. Each short field gets its own message. |
| ResumeAnalysisTab.FormAgreesWithActionSchema | src/components/dashboard/resume-analysis-tab.tsx:31-34 | Every resume the form accepts also passes the action's own check, and a resume that passes the action's check draws no resume message from the form. |
| ResumeAnalysisTab.FindJd | src/components/dashboard/resume-analysis-tab.tsx:57 | The lookup fails iff no job has the identifier. Otherwise it returns the first job that has it. |
| ResumeAnalysisTab.FindJdFindsTheOne | src/components/dashboard/resume-analysis-tab.tsx:57 | With distinct identifiers, the lookup returns the job that carries the identifier. |
| ResumeAnalysisTab.ResumeAnalysisForm.constructor | src/components/dashboard/resume-analysis-tab.tsx:45-54 | Both fields start empty, no analysis is running and no notice is shown. |
| ResumeAnalysisTab.ResumeAnalysisForm.OnSubmit | src/components/dashboard/resume-analysis-tab.tsx:56-95 | If the job is not found, nothing is sent and a not-found notice is shown. Otherwise the action gets the job, the pasted text and the placeholder file name, and its full contract holds. A success goes to the dashboard and clears the resume text but keeps the job choice. A failure shows the action's message and leaves the dashboard and form alone. Submission needs the busy flag off, since the button is disabled while it is on, and the flag is off again afterwards on every path. |

## Left out

- The AI flows behind `extractSkills`, `scoreResumeRelevance` and `generateActionableFeedback` are not part of this model. So are the prompts, the Genkit runtime and the schemas those flows check their own output against. Each service appears only as the value it returns or the fact that it threw.
- A schema error raised inside one of the services would make the action join that error's messages. The model treats every thrown service as the "overloaded" failure.
- `crypto.randomUUID()` and `new Date().toISOString()` are parameters (`freshId`, `now`). The model does not check that identifiers are UUIDs, only that a new job's identifier is not already in use.
- `Text.Lower` lower-cases ASCII letters only. JavaScript's `toLowerCase` also folds other Unicode letters, and can change a string's length.
- String lengths in the schemas count Dafny characters. JavaScript counts UTF-16 code units, so the two differ on characters outside the Basic Multilingual Plane.
- `ResultsTab.MinScoreFilter` stands for the result of `parseInt` on the minimum-score box: empty, a number, or not a number. The parsing itself is not modelled, and scores are integers rather than JavaScript numbers.
- `Text.Join` states only the empty and one-message cases. The action's schema can produce at most one message.
- Concurrency is not modelled: `Promise.all` and the awaits are one step, and only the order of requests is recorded. The busy flag is modelled only as off when a submission starts and off again when it ends; its value while the action runs is not observable in the model.
- Toasts become the `Notice` value of the resume form. The JD upload form shows none.
- Rendering, styling, chart colours, the `fill` entries of the pie data and relative dates are not modelled. The card's "Matching Skills" heading lists all normalised resume skills rather than their intersection with the job skills; the model reproduces the stored data only.
- The action's logging of a caught error (`console.error` at src/app/actions.ts:71) is not modelled: it writes to the server console and changes no result.
- A transport failure of the server action, which would reach the form's `catch` with a different message, is not modelled.
- The verdict tally uses a plain object as its map. A verdict such as "constructor" finds a key on the object's prototype, but that never changes the three counters the chart reads. The model keeps the three keys only.
- Stored resume skills are lower-cased and de-duplicated (src/app/actions.ts:40, 60), while the job skills keep their original case as extracted (src/app/actions.ts:59).

## Findings

| source | as written | input that shows it | evidently intended | confidence | as-written member | corrected member |
|---|---|---|---|---|---|---|
| src/components/dashboard/results-tab.tsx:21-23, 53 | The "All Locations" entry sets the location filter to "all". That string is non-empty, so results are kept only if their location is literally "all". | One result located in Pune: choosing "All Locations" shows no results. | "All Locations" means no location filter, so every result is shown. | not executed | ResultsTab.AllLocationsCounterexample | ResultsTab.NoFilterKeepsEverything |
