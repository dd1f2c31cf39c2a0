/** The job-description upload form
    (src/components/dashboard/jd-upload-tab.tsx). */
module JdUploadTab {
  import opened Types
  import opened DashboardClient

  const ROLE_MIN_LENGTH: nat := 2
  const LOCATION_MIN_LENGTH: nat := 1
  const TEXT_MIN_LENGTH: nat := 50
  const ROLE_MESSAGE := "Job role must be at least 2 characters."
  const LOCATION_MESSAGE := "Please select a location."
  const TEXT_MESSAGE := "Job description must be at least 50 characters."

  /** The locations the picker offers; the schema itself accepts any
      non-empty location. */
  const LOCATION_OPTIONS: seq<string> := ["Hyderabad", "Bangalore", "Pune", "Delhi NCR", "Remote"]

  /** The form schema: one message per field that is too short, in field
      order. */
  function JdFormErrors(values: JdDraft): (errors: seq<FieldError>)
    ensures errors == [] <==>
      |values.role| >= ROLE_MIN_LENGTH && |values.location| >= LOCATION_MIN_LENGTH && |values.text| >= TEXT_MIN_LENGTH
    ensures FieldError("role", ROLE_MESSAGE) in errors <==> |values.role| < ROLE_MIN_LENGTH
    ensures FieldError("location", LOCATION_MESSAGE) in errors <==> values.location == ""
    ensures FieldError("text", TEXT_MESSAGE) in errors <==> |values.text| < TEXT_MIN_LENGTH
    ensures |errors| <= 3
  {
    (if |values.role| < ROLE_MIN_LENGTH then [FieldError("role", ROLE_MESSAGE)] else [])
    + (if |values.location| < LOCATION_MIN_LENGTH then [FieldError("location", LOCATION_MESSAGE)] else [])
    + (if |values.text| < TEXT_MIN_LENGTH then [FieldError("text", TEXT_MESSAGE)] else [])
  }

  /** The location rule only asks for something non-empty: a location the
      picker does not offer passes as well as one it does. */
  lemma AnyNonEmptyLocationAccepted(values: JdDraft, other: string)
    requires JdFormErrors(values) == []
    requires other != "" && other !in LOCATION_OPTIONS
    ensures JdFormErrors(values.(location := other)) == []
  {
  }

  class JdUploadForm {
    var role: string
    var location: string
    var text: string

    /** Every field starts empty. */
    constructor ()
      ensures role == "" && location == "" && text == ""
    {
      role, location, text := "", "", "";
    }

    /** `onSubmit`: hand the values to the dashboard unchanged, then reset
        every field to empty. */
    method OnSubmit(values: JdDraft, dashboard: Dashboard, freshId: string)
      requires dashboard.Valid()
      requires forall j :: j in dashboard.jds ==> j.id != freshId
      modifies this, dashboard
      ensures dashboard.Valid()
      ensures dashboard.jds == [JobDescription(freshId, values.role, values.location, values.text)] + old(dashboard.jds)
      ensures dashboard.results == old(dashboard.results)
      ensures dashboard.activeTab == AnalyzeResume
      ensures role == "" && location == "" && text == ""
    {
      dashboard.HandleJdUpload(values, freshId);
      role, location, text := "", "", "";
    }
  }
}
