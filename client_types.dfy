/** The response shape the web client receives from the fact-check
    endpoint. Optional fields of a paper are None when absent. */
module ClientTypes {

  import opened Common

  datatype PaperAnalysis = PaperAnalysis(paperNumber: int, relationToClaim: string)

  datatype Reference = Reference(title: string, url: string)

  datatype Paper = Paper(
    title: string,
    snippet: string,
    url: string,
    authors: Option<seq<string>>,
    year: Option<string>,
    publication: Option<string>,
    citationCount: Option<int>,
    relevance: Option<string>,
    keyFindings: Option<string>,
    position: Option<string>)

  datatype Response = Response(
    claim: string,
    assessment: string,
    explanation: string,
    paperAnalyses: seq<PaperAnalysis>,
    references: seq<Reference>,
    papers: seq<Paper>,
    humanFriendlyResponse: string)
}
