/** The wire data model of the fact-check API: three closed enumerations,
    the request with its claim length bound, and the paper and response
    records with their field defaults. */
module Schemas {

  import opened Common

  // ---------------------------------------------------------------------
  // Enumerations

  datatype AssessmentType = Supported | Refuted | Insufficient

  function AssessmentLabel(a: AssessmentType): string
  {
    match a
    case Supported => "Supported"
    case Refuted => "Refuted"
    case Insufficient => "Lacks Sufficient Evidence"
  }

  /** Validation of a string against the enumeration: exactly the three
      labels are accepted, each as the member that carries it. */
  function ParseAssessment(s: string): (r: Option<AssessmentType>)
    ensures r.Some? <==> s == "Supported" || s == "Refuted" || s == "Lacks Sufficient Evidence"
    ensures r.Some? ==> AssessmentLabel(r.value) == s
  {
    if s == "Supported" then Some(Supported)
    else if s == "Refuted" then Some(Refuted)
    else if s == "Lacks Sufficient Evidence" then Some(Insufficient)
    else None
  }

  lemma AssessmentRoundTrip(a: AssessmentType)
    ensures ParseAssessment(AssessmentLabel(a)) == Some(a)
  {
  }

  datatype RelevanceType = High | Medium | Low | Unknown

  function RelevanceLabel(r: RelevanceType): string
  {
    match r
    case High => "High"
    case Medium => "Medium"
    case Low => "Low"
    case Unknown => "Unknown"
  }

  function ParseRelevance(s: string): (r: Option<RelevanceType>)
    ensures r.Some? <==> s == "High" || s == "Medium" || s == "Low" || s == "Unknown"
    ensures r.Some? ==> RelevanceLabel(r.value) == s
  {
    if s == "High" then Some(High)
    else if s == "Medium" then Some(Medium)
    else if s == "Low" then Some(Low)
    else if s == "Unknown" then Some(Unknown)
    else None
  }

  lemma RelevanceRoundTrip(r: RelevanceType)
    ensures ParseRelevance(RelevanceLabel(r)) == Some(r)
  {
  }

  datatype PositionType = Supports | Refutes | Neutral | NotAssessed

  function PositionLabel(p: PositionType): string
  {
    match p
    case Supports => "Supports"
    case Refutes => "Refutes"
    case Neutral => "Neutral"
    case NotAssessed => "Not assessed"
  }

  function ParsePosition(s: string): (r: Option<PositionType>)
    ensures r.Some? <==> s == "Supports" || s == "Refutes" || s == "Neutral" || s == "Not assessed"
    ensures r.Some? ==> PositionLabel(r.value) == s
  {
    if s == "Supports" then Some(Supports)
    else if s == "Refutes" then Some(Refutes)
    else if s == "Neutral" then Some(Neutral)
    else if s == "Not assessed" then Some(NotAssessed)
    else None
  }

  lemma PositionRoundTrip(p: PositionType)
    ensures ParsePosition(PositionLabel(p)) == Some(p)
  {
  }

  // ---------------------------------------------------------------------
  // Request

  const MinClaimLength: nat := 10
  const MaxClaimLength: nat := 500

  datatype FactCheckRequest = FactCheckRequest(claim: string)

  /** The request validation: a claim is accepted unchanged exactly when its
      length (in code points) lies in [10, 500]. */
  function ValidateRequest(claim: string): (r: Result<FactCheckRequest, string>)
    ensures r.Ok? <==> 10 <= |claim| <= 500
    ensures r.Ok? ==> r.value.claim == claim
  {
    if |claim| < MinClaimLength then Err("String should have at least 10 characters")
    else if |claim| > MaxClaimLength then Err("String should have at most 500 characters")
    else Ok(FactCheckRequest(claim))
  }

  // ---------------------------------------------------------------------
  // Records

  datatype Reference = Reference(title: string, url: string)

  datatype PaperAnalysis = PaperAnalysis(paperNumber: int, relationToClaim: string)

  datatype Paper = Paper(
    title: string,
    snippet: string,
    url: string,
    authors: seq<string>,
    year: string,
    publication: string,
    citationCount: int,
    relevance: RelevanceType,
    keyFindings: string,
    position: PositionType)

  /** Building a Paper from the only two required fields: every optional
      field takes its declared default (url, year, publication and
      key findings empty, no authors, no citations, relevance Unknown,
      position Not assessed). */
  function DefaultPaper(title: string, snippet: string): (p: Paper)
    ensures p.title == title && p.snippet == snippet
    ensures p.url == "" && p.authors == [] && p.year == "" && p.publication == ""
    ensures p.citationCount == 0 && p.keyFindings == ""
    ensures p.relevance == Unknown && PositionLabel(p.position) == "Not assessed"
  {
    Paper(title, snippet, "", [], "", "", 0, Unknown, "", NotAssessed)
  }

  /** A relevance that may be missing: the default Unknown when it is, the
      parsed label when it is one of the four, nothing otherwise. */
  function ValidateRelevance(relevance: Option<string>): (r: Option<RelevanceType>)
    ensures r.Some? <==> relevance.None? || ParseRelevance(relevance.value).Some?
    ensures r.Some? ==> RelevanceLabel(r.value) == relevance.GetOr("Unknown")
  {
    if relevance.None? then Some(Unknown) else ParseRelevance(relevance.value)
  }

  /** A position that may be missing: the default Not assessed when it is,
      the parsed label when it is one of the four, nothing otherwise. */
  function ValidatePosition(position: Option<string>): (r: Option<PositionType>)
    ensures r.Some? <==> position.None? || ParsePosition(position.value).Some?
    ensures r.Some? ==> PositionLabel(r.value) == position.GetOr("Not assessed")
  {
    if position.None? then Some(NotAssessed) else ParsePosition(position.value)
  }

  const RelevanceRejected: string := "relevance: input should be 'High', 'Medium', 'Low' or 'Unknown'"
  const PositionRejected: string := "position: input should be 'Supports', 'Refutes', 'Neutral' or 'Not assessed'"

  /** Validation of a paper whose relevance and position arrive as optional
      strings: a missing one takes its default, a present one must be one of
      the enumeration's labels, or the whole paper is rejected. */
  function ValidatePaper(
    title: string, snippet: string, url: string, authors: seq<string>,
    year: string, publication: string, citationCount: int,
    relevance: Option<string>, keyFindings: string, position: Option<string>)
    : (r: Result<Paper, string>)
    ensures r.Ok? <==> ValidateRelevance(relevance).Some? && ValidatePosition(position).Some?
    ensures r.Ok? ==> r.value.title == title && r.value.snippet == snippet && r.value.url == url
                      && r.value.authors == authors && r.value.keyFindings == keyFindings
                      && r.value.year == year && r.value.publication == publication
                      && r.value.citationCount == citationCount
    ensures r.Ok? ==> Some(r.value.relevance) == ValidateRelevance(relevance)
                      && Some(r.value.position) == ValidatePosition(position)
  {
    var rel := ValidateRelevance(relevance);
    var pos := ValidatePosition(position);
    if rel.None? then Err(RelevanceRejected)
    else if pos.None? then Err(PositionRejected)
    else Ok(Paper(title, snippet, url, authors, year, publication, citationCount,
                  rel.value, keyFindings, pos.value))
  }

  datatype FactCheckResponse = FactCheckResponse(
    claim: string,
    assessment: AssessmentType,
    explanation: string,
    paperAnalyses: seq<PaperAnalysis>,
    references: seq<Reference>,
    papers: seq<Paper>,
    humanFriendlyResponse: string)

  /** A response built from its three required fields has empty lists and
      an empty report. */
  function DefaultResponse(claim: string, assessment: AssessmentType, explanation: string)
    : (r: FactCheckResponse)
    ensures r.claim == claim && r.assessment == assessment && r.explanation == explanation
    ensures r.paperAnalyses == [] && r.references == [] && r.papers == []
    ensures r.humanFriendlyResponse == ""
  {
    FactCheckResponse(claim, assessment, explanation, [], [], [], "")
  }
}
