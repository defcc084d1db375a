/**
 * Request and response constraints (backend/app/models/schemas.py): the two
 * string enums and the field bounds that request validation enforces before
 * an endpoint runs. Validation yields the validated value or the names of
 * every field that failed, in declaration order.
 */
module Schemas {
  import opened Wrappers

  /** VisibilityLevel. */
  datatype Visibility = Private | SharedSummary | Caregiver {
    function Value(): string {
      match this
      case Private => "PRIVATE"
      case SharedSummary => "SHARED_SUMMARY"
      case Caregiver => "CAREGIVER"
    }
  }

  function ParseVisibility(s: string): (r: Option<Visibility>)
    ensures r.Some? ==> r.value.Value() == s
  {
    if s == "PRIVATE" then Some(Private)
    else if s == "SHARED_SUMMARY" then Some(SharedSummary)
    else if s == "CAREGIVER" then Some(Caregiver)
    else None
  }

  /** Exactly the three values are accepted, and each parses back to itself. */
  lemma VisibilityValues(s: string, v: Visibility)
    ensures ParseVisibility(s).Some? <==> s in {"PRIVATE", "SHARED_SUMMARY", "CAREGIVER"}
    ensures ParseVisibility(v.Value()) == Some(v)
  {
  }

  /** UrgencyLevel. */
  datatype Urgency = Low | Medium | High | Emergency | UnknownUrgency {
    function Value(): string {
      match this
      case Low => "LOW"
      case Medium => "MEDIUM"
      case High => "HIGH"
      case Emergency => "EMERGENCY"
      case UnknownUrgency => "UNKNOWN"
    }
  }

  function ParseUrgency(s: string): (r: Option<Urgency>)
    ensures r.Some? ==> r.value.Value() == s
  {
    if s == "LOW" then Some(Low)
    else if s == "MEDIUM" then Some(Medium)
    else if s == "HIGH" then Some(High)
    else if s == "EMERGENCY" then Some(Emergency)
    else if s == "UNKNOWN" then Some(UnknownUrgency)
    else None
  }

  lemma UrgencyValues(s: string, u: Urgency)
    ensures ParseUrgency(s).Some? <==> s in {"LOW", "MEDIUM", "HIGH", "EMERGENCY", "UNKNOWN"}
    ensures ParseUrgency(u.Value()) == Some(u)
  {
  }

  /** ReportCreate, once validated. */
  datatype ReportCreate = ReportCreate(owner: string, visibility: Visibility, reportText: string)

  const MinReportLength: nat := 10

  /**
   * Validation of a ReportCreate body: `visibility` defaults to
   * SHARED_SUMMARY and must otherwise be one of the enum values;
   * `report_text` must have at least ten characters.
   */
  function ValidateReportCreate(owner: string, visibility: Option<string>, reportText: string)
    : (r: Result<ReportCreate, seq<string>>)
    ensures r.Ok? <==> (visibility.None? || ParseVisibility(visibility.value).Some?) && |reportText| >= MinReportLength
    ensures r.Ok? ==> r.value.owner == owner && r.value.reportText == reportText
    ensures r.Ok? && visibility.None? ==> r.value.visibility == SharedSummary
    ensures r.Ok? && visibility.Some? ==> r.value.visibility.Value() == visibility.value
    ensures r.Err? ==> r.error != [] && forall f :: f in r.error ==> f in {"visibility", "report_text"}
  {
    var vis := if visibility.None? then Some(SharedSummary) else ParseVisibility(visibility.value);
    var errors := (if vis.None? then ["visibility"] else []) + (if |reportText| < MinReportLength then ["report_text"] else []);
    if errors == [] then Ok(ReportCreate(owner, vis.value, reportText)) else Err(errors)
  }

  /** ExtractRequest, once validated. */
  datatype ExtractRequest = ExtractRequest(reportText: string)

  function ValidateExtractRequest(reportText: string): (r: Result<ExtractRequest, seq<string>>)
    ensures r.Ok? <==> |reportText| >= MinReportLength
    ensures r.Ok? ==> r.value.reportText == reportText
  {
    if |reportText| >= MinReportLength then Ok(ExtractRequest(reportText)) else Err(["report_text"])
  }

  /** ImageAnalysisRequest, once validated. */
  datatype ImageAnalysisRequest = ImageAnalysisRequest(prompt: string, maxNewTokens: int)

  const DefaultImagePrompt: string := "Describe this medical image in detail"
  const DefaultMaxNewTokens: int := 2000
  const MinNewTokens: int := 100
  const MaxNewTokens: int := 4000

  function ValidateImageAnalysisRequest(prompt: Option<string>, maxNewTokens: Option<int>)
    : (r: Result<ImageAnalysisRequest, seq<string>>)
    ensures r.Ok? <==> maxNewTokens.None? || MinNewTokens <= maxNewTokens.value <= MaxNewTokens
    ensures r.Ok? ==> MinNewTokens <= r.value.maxNewTokens <= MaxNewTokens
    ensures r.Ok? ==> r.value.prompt == prompt.GetOr(DefaultImagePrompt)
    ensures r.Ok? ==> r.value.maxNewTokens == maxNewTokens.GetOr(DefaultMaxNewTokens)
  {
    var n := maxNewTokens.GetOr(DefaultMaxNewTokens);
    if MinNewTokens <= n <= MaxNewTokens then Ok(ImageAnalysisRequest(prompt.GetOr(DefaultImagePrompt), n))
    else Err(["max_new_tokens"])
  }

  /** ReportResponse; `extracted` holds the stored JSON text that the endpoint decodes. */
  datatype ReportResponse = ReportResponse(
    id: nat, owner: string, visibility: string, urgency: string, status: string, createdAt: string,
    reportText: Option<string>, extracted: Option<string>, patientView: Option<string>, familyView: Option<string>)
}
