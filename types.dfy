/** The two records the dashboard passes around (src/lib/types.ts).
    Scores are whole numbers here; the source types them as JavaScript
    numbers. */
module Types {

  datatype Option<+T> = None | Some(value: T)

  /** A job description as held in the dashboard's list. */
  datatype JobDescription = JobDescription(id: string, role: string, location: string, text: string)

  /** `Omit<JobDescription, 'id'>`: what the upload form submits. */
  datatype JdDraft = JdDraft(role: string, location: string, text: string)

  /** One completed analysis of a resume against a job description. */
  datatype AnalysisResult = AnalysisResult(
    id: string,
    relevanceScore: int,
    hardMatchScore: int,
    semanticMatchScore: int,
    verdict: string,
    jobRole: string,
    location: string,
    resumeFilename: string,
    jdSkills: seq<string>,
    resumeSkills: seq<string>,
    missingSkills: seq<string>,
    suggestions: seq<string>,
    analyzedAt: string)

  /** A message a form shows under one of its fields. */
  datatype FieldError = FieldError(field: string, message: string)
}
