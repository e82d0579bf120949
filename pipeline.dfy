/** The fact-check pipeline: keywords for a claim (from the model, or a
    stop-word fallback), the per-paper findings, the overall analysis, the
    final result and the markdown report. Every call to the model and to
    the search service enters as a parameter; json.loads is the `decode`
    parameter. */
module Pipeline {

  import opened Common
  import opened Text
  import opened LlmService
  import opened SearchService
  import Schemas

  const PaperSearchLimit: int := 5

  // ---------------------------------------------------------------------
  // Fallback keywords

  /** The stop-word list, as written (with its repeated entries). */
  const StopWords: seq<string> := [
    "a", "an", "the", "and", "or", "but", "if", "because", "as", "what", "when", "where", "how",
    "why", "which", "who", "whom", "this", "that", "these", "those", "is", "are", "was", "were",
    "be", "been", "being", "have", "has", "had", "do", "does", "did", "for", "of", "on", "to",
    "with", "by", "about", "against", "between", "into", "through", "during", "before", "after",
    "above", "below", "from", "up", "down", "in", "out", "on", "off", "over", "under", "again",
    "further", "then", "once", "here", "there", "when", "where", "why", "how", "all", "any",
    "both", "each", "few", "more", "most", "other", "some", "such", "no", "nor", "not", "only",
    "own", "same", "so", "than", "too", "very", "s", "t", "can", "will", "just", "don", "should",
    "now", "causes"]

  /** The words that are not in `stop`, in claim order: each kept word is a
      word of the claim and not a stop word, every such word is kept, and
      the kept words are a subsequence of the claim (see also
      UnstoppedAppend, which keeps repeated words). */
  function Unstopped(words: seq<string>, stop: seq<string>): (ks: seq<string>)
    ensures |ks| <= |words|
    ensures forall k :: 0 <= k < |ks| ==> ks[k] in words && ks[k] !in stop
    ensures forall w :: w in words && w !in stop ==> w in ks
    ensures Subsequence(ks, words)
  {
    if words == [] then []
    else
      var rest := Unstopped(words[1..], stop);
      assert forall w :: w in words[1..] ==> w in words;
      assert forall w :: w in words && w != words[0] ==> w in words[1..];
      assert [words[0]] + words[1..] == words;
      if words[0] in stop then
        SubsequenceCons(rest, words[0], words[1..]);
        rest
      else
        assert ([words[0]] + rest)[1..] == rest;
        [words[0]] + rest
  }

  /** The filter works word by word: the words of a concatenation are
      filtered part by part, so every occurrence of a kept word is kept, in
      claim order. */
  lemma {:induction false} UnstoppedAppend(a: seq<string>, b: seq<string>, stop: seq<string>)
    ensures Unstopped(a + b, stop) == Unstopped(a, stop) + Unstopped(b, stop)
  {
    if a != [] {
      assert (a + b)[1..] == a[1..] + b;
      UnstoppedAppend(a[1..], b, stop);
    } else {
      assert a + b == b;
    }
  }

  /** A single word is kept exactly when it is not a stop word. */
  lemma UnstoppedOne(w: string, stop: seq<string>)
    ensures Unstopped([w], stop) == if w in stop then [] else [w]
  {
    assert [w][1..] == [];
  }

  /** The position of the first "causes" when it has a word on each side:
      there is none when "causes" is absent, is the first word, or occurs
      only as the last word. */
  function InteriorCauses(words: seq<string>): (ci: Option<nat>)
    ensures ci.Some? ==> 0 < ci.value < |words| - 1 && words[ci.value] == "causes"
                         && "causes" !in words[..ci.value]
    ensures ci.None? <==> "causes" !in words || words[0] == "causes" || "causes" !in words[..|words| - 1]
  {
    match IndexOfElem(words, "causes")
    case None => None
    case Some(i) =>
      assert words[..i + 1] == words[..i] + [words[i]];
      if 0 < i < |words| - 1 then
        assert words[..|words| - 1][i] == words[i];
        Some(i)
      else None
  }

  /** The keywords before the bigrams are added: the three words around an
      interior "causes", or else the words that are not stop words. */
  function BaseKeywords(words: seq<string>, stop: seq<string>): seq<string>
  {
    match InteriorCauses(words)
    case Some(ci) => [words[ci - 1], words[ci], words[ci + 1]]
    case None => Unstopped(words, stop)
  }

  /** Each keyword joined to the next by a space. */
  function Bigrams(ks: seq<string>): (bs: seq<string>)
    ensures |bs| == if |ks| >= 1 then |ks| - 1 else 0
    ensures forall i :: 0 <= i < |bs| ==> bs[i] == ks[i] + " " + ks[i + 1]
  {
    if |ks| <= 1 then [] else seq(|ks| - 1, i requires 0 <= i < |ks| - 1 => ks[i] + " " + ks[i + 1])
  }

  /** The keywords with up to two bigrams added, cut to five. */
  function Extended(ks: seq<string>): (r: seq<string>)
    ensures |r| <= 5
  {
    Take(if |ks| >= 2 then ks + Take(Bigrams(ks), 2) else ks, 5)
  }

  function KeywordsOf(words: seq<string>, stop: seq<string>): (r: seq<string>)
    ensures |r| <= 5
  {
    Extended(BaseKeywords(words, stop))
  }

  /** _fallback_keyword_extraction, as a value. */
  function FallbackKeywords(claim: string): (r: seq<string>)
    ensures |r| <= 5
  {
    KeywordsOf(PySplit(Lower(claim)), StopWords)
  }

  /** _fallback_keyword_extraction, building the combinations in a loop
      and extending the keyword list with the first two. */
  method FallbackKeywordExtraction(claim: string) returns (keywords: seq<string>)
    ensures keywords == FallbackKeywords(claim)
  {
    keywords := KeywordExtraction(PySplit(Lower(claim)), StopWords);
  }

  /** The steps of _fallback_keyword_extraction after the split, for a
      given stop-word list. */
  method KeywordExtraction(words: seq<string>, stop: seq<string>) returns (keywords: seq<string>)
    ensures keywords == KeywordsOf(words, stop)
  {
    keywords := Unstopped(words, stop);
    if "causes" in words {
      var causesIndex := IndexOfElem(words, "causes").value;
      if causesIndex > 0 && causesIndex < |words| - 1 {
        keywords := [words[causesIndex - 1], words[causesIndex], words[causesIndex + 1]];
      }
    }
    assert keywords == BaseKeywords(words, stop);
    keywords := ExtendWithCombinations(keywords);
  }

  /** The combinations loop and the final cut. */
  method ExtendWithCombinations(ks: seq<string>) returns (keywords: seq<string>)
    ensures keywords == Extended(ks)
  {
    keywords := ks;
    if |keywords| >= 2 {
      var combinations: seq<string> := [];
      for i := 0 to |keywords| - 1
        invariant combinations == Bigrams(keywords)[..i]
      {
        combinations := combinations + [keywords[i] + " " + keywords[i + 1]];
      }
      keywords := keywords + Take(combinations, 2);
    }
    keywords := Take(keywords, 5);
  }

  /** The extended list starts with the keywords; with five or more of
      them it is exactly the first five and no bigram survives; with two to
      four, the bigrams of the first pairs follow, up to five in all; with
      fewer than two it is the keywords themselves. */
  lemma ExtendedShape(ks: seq<string>)
    ensures var r := Extended(ks);
            (forall i :: 0 <= i < |r| && i < |ks| ==> r[i] == ks[i])
            && (|ks| >= 5 ==> r == ks[..5])
            && (|ks| < 2 ==> r == ks)
            && (2 <= |ks| < 5 ==>
                  |r| == (if |ks| == 2 then 3 else 5)
                  && forall j :: |ks| <= j < |r| ==> r[j] == ks[j - |ks|] + " " + ks[j - |ks| + 1])
  {
    if |ks| >= 2 {
      var extended := ks + Take(Bigrams(ks), 2);
      assert forall j :: |ks| <= j < |extended| ==> extended[j] == Bigrams(ks)[j - |ks|];
    }
  }

  /** Without an interior "causes", the keywords begin with the claim's
      non-stop words, position by position (so in claim order), and go on
      with bigrams of consecutive such words; when there are five or more
      such words the keywords are exactly the first five. */
  lemma KeywordsWithoutInteriorCauses(words: seq<string>, stop: seq<string>)
    requires InteriorCauses(words).None?
    ensures var ks := Unstopped(words, stop);
            var r := KeywordsOf(words, stop);
            (|ks| >= 5 ==> r == ks[..5])
            && (forall i :: 0 <= i < |r| && i < |ks| ==> r[i] == ks[i] && r[i] in words && r[i] !in stop)
            && (forall j :: |ks| <= j < |r| ==> r[j] == ks[j - |ks|] + " " + ks[j - |ks| + 1])
  {
    var ks := Unstopped(words, stop);
    ExtendedShape(ks);
  }

  /** With an interior "causes" the result is exactly the word before, the
      word itself, the word after, and the two bigrams around it. */
  lemma KeywordsWithInteriorCauses(words: seq<string>, stop: seq<string>)
    requires InteriorCauses(words).Some?
    ensures var i := InteriorCauses(words).value;
            KeywordsOf(words, stop) == [words[i - 1], "causes", words[i + 1],
                                        words[i - 1] + " causes", "causes " + words[i + 1]]
  {
    var i := InteriorCauses(words).value;
    var ks := [words[i - 1], words[i], words[i + 1]];
    assert BaseKeywords(words, stop) == ks;
    var bs := Bigrams(ks);
    assert bs == [words[i - 1] + " " + words[i], words[i] + " " + words[i + 1]];
    assert Take(bs, 2) == bs;
    assert words[i - 1] + " " + words[i] == words[i - 1] + " causes" by {
      assert " " + "causes" == " causes";
    }
    assert words[i] + " " + words[i + 1] == "causes " + words[i + 1] by {
      assert "causes" + " " == "causes ";
    }
    assert ks + bs == [words[i - 1], "causes", words[i + 1],
                       words[i - 1] + " causes", "causes " + words[i + 1]];
  }

  // ---------------------------------------------------------------------
  // Keywords from the model

  /** The model's reply split on commas with each piece stripped: one more
      keyword than there are commas, none holding a comma, none padded. */
  function SplitKeywords(content: string): (ks: seq<string>)
    ensures |ks| == CountChar(content, ',') + 1
    ensures forall i :: 0 <= i < |ks| ==> ks[i] == PyStrip(SplitOn(content, ',')[i])
    ensures forall i :: 0 <= i < |ks| ==> ',' !in ks[i]
    ensures forall i :: 0 <= i < |ks| ==> ks[i] != [] ==> !IsPySpace(ks[i][0]) && !IsPySpace(ks[i][|ks[i]| - 1])
  {
    var pieces := SplitOn(content, ',');
    var ks := seq(|pieces|, i requires 0 <= i < |pieces| => PyStrip(pieces[i]));
    assert forall i :: 0 <= i < |ks| ==> ks[i] == Trim(pieces[i], PyBlank);
    assert forall i, c :: 0 <= i < |ks| && c in ks[i] ==> c in pieces[i];
    ks
  }

  /** A comma splits the reply into the keywords before it and the keywords
      after it. */
  lemma SplitKeywordsAppend(a: string, b: string)
    ensures SplitKeywords(a + "," + b) == SplitKeywords(a) + SplitKeywords(b)
  {
    SplitOnAppend(a, ',', b);
  }

  /** A reply without a comma is a single keyword: the reply stripped. */
  lemma SplitKeywordsOne(k: string)
    requires ',' !in k
    ensures SplitKeywords(k) == [PyStrip(k)]
  {
    SplitOnNone(k, ',');
  }

  /** A reply without blanks comes back whole when the keywords are joined
      with commas again. */
  lemma SplitKeywordsRoundTrip(content: string)
    requires forall i :: 0 <= i < |content| ==> !IsPySpace(content[i])
    ensures Join(SplitKeywords(content), ",") == content
  {
    var pieces := SplitOn(content, ',');
    assert forall c :: c in content ==> !IsPySpace(c);
    forall i | 0 <= i < |pieces|
      ensures PyStrip(pieces[i]) == pieces[i]
    {
      SplitOnChars(content, ',', i);
      assert pieces[i] != [] ==> pieces[i][0] in content && pieces[i][|pieces[i]| - 1] in content;
      TrimUnpadded(pieces[i], PyBlank);
    }
    assert SplitKeywords(content) == pieces;
    JoinSplitOn(content, ',');
  }

  /** extract_keywords: the split reply, or the fallback when the call to
      the model fails. */
  function ExtractKeywords(claim: string, reply: LlmOutcome): (ks: seq<string>)
    ensures reply.LlmError? ==> ks == FallbackKeywords(claim) && |ks| <= 5
    ensures reply.LlmText? ==> ks == SplitKeywords(reply.content) && |ks| == CountChar(reply.content, ',') + 1
  {
    match reply
    case LlmError(_) => FallbackKeywords(claim)
    case LlmText(content) => SplitKeywords(content)
  }

  // ---------------------------------------------------------------------
  // Paper findings

  /** A paper dictionary; None for a key it lacks. The search service sets
      the first seven keys; the findings step adds the last three. */
  datatype PaperDict = PaperDict(
    title: Option<string>,
    snippet: Option<string>,
    url: Option<string>,
    authors: Option<seq<string>>,
    year: Option<string>,
    publication: Option<string>,
    citationCount: Option<int>,
    relevance: Option<string>,
    keyFindings: Option<string>,
    position: Option<string>)

  function AsDict(f: Found): (p: PaperDict)
    ensures p.relevance.None? && p.keyFindings.None? && p.position.None?
  {
    PaperDict(Some(f.title), Some(f.snippet), Some(f.url), Some(f.authors), Some(f.year),
              Some(f.publication), Some(f.citationCount), None, None, None)
  }

  const ShortAbstractFindings: string := "Abstract too short to extract meaningful findings."
  const ErrorFindings: string := "Error processing paper."

  /** paper.update(findings) for the three keys a findings reply carries:
      a key present in the reply replaces the paper's, the others stay. */
  function ApplyFindings(p: PaperDict, r: Reply): (q: PaperDict)
    ensures q.relevance == (if r.relevance.Some? then r.relevance else p.relevance)
    ensures q.keyFindings == (if r.keyFindings.Some? then r.keyFindings else p.keyFindings)
    ensures q.position == (if r.position.Some? then r.position else p.position)
    ensures q.(relevance := p.relevance, keyFindings := p.keyFindings, position := p.position) == p
  {
    p.(relevance := if r.relevance.Some? then r.relevance else p.relevance,
       keyFindings := if r.keyFindings.Some? then r.keyFindings else p.keyFindings,
       position := if r.position.Some? then r.position else p.position)
  }

  /** The error defaults of the findings step. */
  function ErrorDefaults(p: PaperDict): PaperDict
  {
    p.(relevance := Some("Unknown"), keyFindings := Some(ErrorFindings), position := Some("Neutral"))
  }

  /** One paper through the findings step. A snippet (or its default text)
      shorter than 50 characters gives relevance Low and the fixed finding
      without asking the model; a failed call or a reply that is not a JSON
      object gives the error defaults; otherwise the reply's keys update the
      paper. No other key of the paper changes. */
  function EnhancePaper(p: PaperDict, reply: LlmOutcome, decode: string -> Decoded): (q: PaperDict)
    ensures q.(relevance := p.relevance, keyFindings := p.keyFindings, position := p.position) == p
    ensures |p.snippet.GetOr("No abstract available")| < 50 ==>
              q.relevance == Some("Low") && q.keyFindings == Some(ShortAbstractFindings) && q.position == p.position
    ensures |p.snippet.GetOr("No abstract available")| >= 50 && reply.LlmError? ==> q == ErrorDefaults(p)
    ensures |p.snippet.GetOr("No abstract available")| >= 50 && reply.LlmText? ==>
              match ParseJsonResponse(reply.content, decode)
              case JsonObject(r) => q == ApplyFindings(p, r)
              case _ => q == ErrorDefaults(p)
  {
    if |p.snippet.GetOr("No abstract available")| < 50 then
      p.(relevance := Some("Low"), keyFindings := Some(ShortAbstractFindings))
    else
      match reply
      case LlmError(_) => ErrorDefaults(p)
      case LlmText(content) =>
        match ParseJsonResponse(content, decode)
        case JsonObject(r) => ApplyFindings(p, r)
        case _ => ErrorDefaults(p)
  }

  /** A paper from the search, whose findings step ends in the error
      defaults or the short-snippet rule, always has a relevance and a key
      finding afterwards. */
  lemma EnhancedHasFindings(f: Found, reply: LlmOutcome, decode: string -> Decoded)
    requires |f.snippet| < 50 || reply.LlmError?
    ensures EnhancePaper(AsDict(f), reply, decode).relevance.Some?
    ensures EnhancePaper(AsDict(f), reply, decode).keyFindings.Some?
  {
  }

  /** extract_paper_findings: one paper per input paper, in order, each
      through the findings step with the model's reply for its position. */
  method ExtractPaperFindings(papers: seq<PaperDict>, replies: nat -> LlmOutcome, decode: string -> Decoded)
    returns (enhanced: seq<PaperDict>)
    ensures |enhanced| == |papers|
    ensures forall i :: 0 <= i < |papers| ==> enhanced[i] == EnhancePaper(papers[i], replies(i), decode)
  {
    if papers == [] {
      return [];
    }
    enhanced := [];
    for i := 0 to |papers|
      invariant |enhanced| == i
      invariant forall k :: 0 <= k < i ==> enhanced[k] == EnhancePaper(papers[k], replies(k), decode)
    {
      var paper := papers[i];
      var snippet := paper.snippet.GetOr("No abstract available");
      if |snippet| < 50 {
        paper := paper.(relevance := Some("Low"), keyFindings := Some(ShortAbstractFindings));
        enhanced := enhanced + [paper];
        continue;
      }
      match replies(i) {
        case LlmError(_) =>
          paper := ErrorDefaults(paper);
        case LlmText(content) =>
          var findings := ParseJsonResponse(content, decode);
          if findings.JsonObject? {
            paper := ApplyFindings(paper, findings.reply);
          } else {
            paper := ErrorDefaults(paper);
          }
      }
      enhanced := enhanced + [paper];
    }
  }

  // ---------------------------------------------------------------------
  // Analysis

  const InsufficientLabel: string := "Lacks Sufficient Evidence"
  const TechnicalIssues: string := "Unable to properly analyze the evidence due to technical issues."
  const NoPapersExplanation: string := "No relevant research papers were found to evaluate this claim."

  function FixedAnalysis(explanation: string): (r: Reply)
    ensures r.assessment == Some(InsufficientLabel) && r.explanation == Some(explanation)
    ensures r.paperAnalyses == Some([])
  {
    Reply(Some(InsufficientLabel), Some(explanation), Some([]), None, None, None)
  }

  /** analyze_with_llm: the parsed reply, or the fixed "technical issues"
      analysis when the call to the model fails. The result is never a
      decode error. */
  function AnalyzeWithLlm(reply: LlmOutcome, decode: string -> Decoded): (d: Decoded)
    ensures !d.NotJson?
    ensures reply.LlmError? ==> d == JsonObject(FixedAnalysis(TechnicalIssues))
    ensures reply.LlmText? ==> d == ParseJsonResponse(reply.content, decode)
  {
    match reply
    case LlmError(_) => JsonObject(FixedAnalysis(TechnicalIssues))
    case LlmText(content) => ParseJsonResponse(content, decode)
  }

  /** The authors of a report section: the names joined by ", ", or
      "Unknown" when there are none. */
  function AuthorsText(authors: Option<seq<string>>): (t: string)
    ensures authors.None? || authors.value == [] ==> t == "Unknown"
    ensures authors.Some? && authors.value != [] ==> t == Join(authors.value, ", ")
    ensures authors.Some? && |authors.value| == 1 ==> t == authors.value[0]
  {
    if authors.Some? && authors.value != [] then Join(authors.value, ", ") else "Unknown"
  }

  // ---------------------------------------------------------------------
  // Result

  /** The result dictionary of fact_check: the assessment and explanation
      are whatever the analysis holds under those keys, None when absent. */
  datatype CheckResult = CheckResult(
    claim: string,
    assessment: Option<string>,
    explanation: Option<string>,
    paperAnalyses: seq<AnalysisEntry>,
    references: seq<Schemas.Reference>)

  /** Why fact_check raises: the search failed (with its message), or the
      analysis was a JSON value other than an object, whose `.get` fails. */
  datatype PipelineError = SearchFailed(message: string) | AnalysisNotAnObject

  function ReferenceOf(p: PaperDict): Schemas.Reference
  {
    Schemas.Reference(p.title.GetOr("Untitled"), p.url.GetOr("#"))
  }

  function References(papers: seq<PaperDict>): (refs: seq<Schemas.Reference>)
    ensures |refs| == |papers|
    ensures forall i :: 0 <= i < |papers| ==> refs[i].title == papers[i].title.GetOr("Untitled")
                                              && refs[i].url == papers[i].url.GetOr("#")
  {
    seq(|papers|, i requires 0 <= i < |papers| => ReferenceOf(papers[i]))
  }

  /** The papers after the findings step, as a value. */
  function EnhancedPapers(found: seq<Found>, replies: nat -> LlmOutcome, decode: string -> Decoded): (ps: seq<PaperDict>)
    ensures |ps| == |found|
  {
    seq(|found|, i requires 0 <= i < |found| => EnhancePaper(AsDict(found[i]), replies(i), decode))
  }

  /** The analysis fact_check uses: the model's, or the fixed "no papers"
      analysis when the findings step produced nothing. */
  function AnalysisFor(enhanced: seq<PaperDict>, analysisReply: LlmOutcome, decode: string -> Decoded): Decoded
  {
    if enhanced != [] then AnalyzeWithLlm(analysisReply, decode)
    else JsonObject(FixedAnalysis(NoPapersExplanation))
  }

  /** The result dictionary built from an analysis: `.get` fails on a JSON
      value that is not an object. */
  function Assemble(claim: string, enhanced: seq<PaperDict>, analysis: Decoded)
    : Result<(CheckResult, seq<PaperDict>), PipelineError>
  {
    match analysis
    case JsonObject(a) =>
      Ok((CheckResult(claim, a.assessment, a.explanation, a.paperAnalyses.GetOr([]), References(enhanced)),
          enhanced))
    case _ => Err(AnalysisNotAnObject)
  }

  /** fact_check after the search, for a given search outcome. */
  function OutcomeAfterSearch(claim: string, search: Result<seq<Found>, string>,
                              findingReplies: nat -> LlmOutcome, analysisReply: LlmOutcome,
                              decode: string -> Decoded)
    : Result<(CheckResult, seq<PaperDict>), PipelineError>
  {
    match search
    case Err(message) => Err(SearchFailed(message))
    case Ok(found) =>
      var enhanced := EnhancedPapers(found, findingReplies, decode);
      Assemble(claim, enhanced, AnalysisFor(enhanced, analysisReply, decode))
  }

  /** fact_check's outcome, as a value. */
  function FactCheckOutcome(claim: string, keywordReply: LlmOutcome,
                            serp: (string, int) -> SearchResponse, pages: string -> PageOutcome,
                            findingReplies: nat -> LlmOutcome, analysisReply: LlmOutcome,
                            decode: string -> Decoded)
    : Result<(CheckResult, seq<PaperDict>), PipelineError>
  {
    OutcomeAfterSearch(claim, SearchOutcome(ExtractKeywords(claim, keywordReply), PaperSearchLimit, serp, pages),
                       findingReplies, analysisReply, decode)
  }

  /** A successful fact check echoes the claim and lists one reference per
      enhanced paper, in order, with the Untitled and # defaults; the
      enhanced papers are the found ones, one for one. A failed search
      surfaces as the search error, and only a failed search does. */
  lemma OutcomeReferences(claim: string, search: Result<seq<Found>, string>,
                          findingReplies: nat -> LlmOutcome, analysisReply: LlmOutcome,
                          decode: string -> Decoded)
    ensures var r := OutcomeAfterSearch(claim, search, findingReplies, analysisReply, decode);
            r.Ok? ==> r.value.0.claim == claim
                      && search.Ok? && |r.value.1| == |search.value|
                      && |r.value.0.references| == |r.value.1|
                      && forall i :: 0 <= i < |r.value.1| ==>
                           r.value.0.references[i] == Schemas.Reference(r.value.1[i].title.GetOr("Untitled"),
                                                                        r.value.1[i].url.GetOr("#"))
    ensures var r := OutcomeAfterSearch(claim, search, findingReplies, analysisReply, decode);
            search.Err? <==> r.Err? && r.error.SearchFailed?
    ensures search.Err? ==> OutcomeAfterSearch(claim, search, findingReplies, analysisReply, decode)
                            == Err(SearchFailed(search.error))
  {
    if search.Ok? {
      var enhanced := EnhancedPapers(search.value, findingReplies, decode);
      var r := Assemble(claim, enhanced, AnalysisFor(enhanced, analysisReply, decode));
      if r.Ok? {
        assert r.value.1 == enhanced;
        assert r.value.0.references == References(enhanced);
      }
    }
  }

  /** Without papers the result is the fixed insufficient-evidence
      analysis with no paper analyses and no references; with papers but a
      failed analysis call it is the "technical issues" analysis. */
  lemma OutcomeFixedAnalyses(claim: string, search: Result<seq<Found>, string>,
                             findingReplies: nat -> LlmOutcome, analysisReply: LlmOutcome,
                             decode: string -> Decoded)
    requires search.Ok?
    ensures search.value == [] ==>
              OutcomeAfterSearch(claim, search, findingReplies, analysisReply, decode)
              == Ok((CheckResult(claim, Some(InsufficientLabel), Some(NoPapersExplanation), [], []), []))
    ensures search.value != [] && analysisReply.LlmError? ==>
              var r := OutcomeAfterSearch(claim, search, findingReplies, analysisReply, decode);
              r.Ok? && r.value.0.assessment == Some(InsufficientLabel)
              && r.value.0.explanation == Some(TechnicalIssues) && r.value.0.paperAnalyses == []
  {
    var enhanced := EnhancedPapers(search.value, findingReplies, decode);
    if search.value == [] {
      assert enhanced == [];
      assert References(enhanced) == [];
    } else {
      assert |enhanced| > 0;
    }
  }

  /** fact_check, step by step. */
  method FactCheck(claim: string, keywordReply: LlmOutcome,
                   serp: (string, int) -> SearchResponse, pages: string -> PageOutcome,
                   findingReplies: nat -> LlmOutcome, analysisReply: LlmOutcome,
                   decode: string -> Decoded)
    returns (r: Result<(CheckResult, seq<PaperDict>), PipelineError>)
    ensures r == FactCheckOutcome(claim, keywordReply, serp, pages, findingReplies, analysisReply, decode)
  {
    var keywords := ExtractKeywords(claim, keywordReply);
    var search := SearchPapers(keywords, PaperSearchLimit, serp, pages);
    r := CheckFound(claim, search, findingReplies, analysisReply, decode);
  }

  /** The steps of fact_check after the search. */
  method CheckFound(claim: string, search: Result<seq<Found>, string>,
                    findingReplies: nat -> LlmOutcome, analysisReply: LlmOutcome,
                    decode: string -> Decoded)
    returns (r: Result<(CheckResult, seq<PaperDict>), PipelineError>)
    ensures r == OutcomeAfterSearch(claim, search, findingReplies, analysisReply, decode)
  {
    if search.Err? {
      return Err(SearchFailed(search.error));
    }
    var papers := search.value;
    var enhancedPapers: seq<PaperDict> := [];
    if papers != [] {
      var dicts := seq(|papers|, i requires 0 <= i < |papers| => AsDict(papers[i]));
      enhancedPapers := ExtractPaperFindings(dicts, findingReplies, decode);
    }
    assert enhancedPapers == EnhancedPapers(papers, findingReplies, decode);
    var analysis: Decoded;
    if enhancedPapers != [] {
      analysis := AnalyzeWithLlm(analysisReply, decode);
    } else {
      analysis := JsonObject(FixedAnalysis(NoPapersExplanation));
    }
    if !analysis.JsonObject? {
      return Err(AnalysisNotAnObject);
    }
    var references := CollectReferences(enhancedPapers);
    var a := analysis.reply;
    r := Ok((CheckResult(claim, a.assessment, a.explanation, a.paperAnalyses.GetOr([]), references), enhancedPapers));
  }

  /** The references loop of fact_check. */
  method CollectReferences(papers: seq<PaperDict>) returns (references: seq<Schemas.Reference>)
    ensures references == References(papers)
  {
    references := [];
    for i := 0 to |papers|
      invariant |references| == i
      invariant forall k :: 0 <= k < i ==> references[k] == ReferenceOf(papers[k])
    {
      var title := papers[i].title.GetOr("Untitled");
      var url := papers[i].url.GetOr("#");
      references := references + [Schemas.Reference(title, url)];
    }
  }

  // ---------------------------------------------------------------------
  // Report

  const Supported: string := "\U{2705}"
  const Refuted: string := "\U{274C}"
  const Warning: string := "\U{26A0}\U{FE0F}"

  /** The emoji of the assessment line: the check mark for exactly
      "Supported", the cross for exactly "Refuted", the warning sign for
      anything else, an absent assessment included. */
  function Emoji(assessment: Option<string>): (e: string)
    ensures e == Supported <==> assessment == Some("Supported")
    ensures e == Refuted <==> assessment == Some("Refuted")
    ensures e == Warning <==> assessment != Some("Supported") && assessment != Some("Refuted")
  {
    if assessment == Some("Supported") then Supported
    else if assessment == Some("Refuted") then Refuted
    else Warning
  }

  /** How an f-string renders an optional text: the text, or "None". */
  function Show(v: Option<string>): string
  {
    v.GetOr("None")
  }

  const NoRelation: string := "Relation to claim not specified."

  /** The analysis text of paper i: the relation of the first entry whose
      paper_number is i, or the fixed text when there is none (or it has no
      relation). */
  function RelationFor(analyses: seq<AnalysisEntry>, i: int): (rel: string)
    ensures (forall k :: 0 <= k < |analyses| ==> analyses[k].paperNumber != Some(i)) ==> rel == NoRelation
    ensures forall k :: 0 <= k < |analyses| && analyses[k].paperNumber == Some(i)
                        && (forall j :: 0 <= j < k ==> analyses[j].paperNumber != Some(i))
                        ==> rel == analyses[k].relationToClaim.GetOr(NoRelation)
  {
    if analyses == [] then NoRelation
    else if analyses[0].paperNumber == Some(i) then analyses[0].relationToClaim.GetOr(NoRelation)
    else
      var rel := RelationFor(analyses[1..], i);
      assert forall k :: 1 <= k < |analyses| ==> analyses[k] == analyses[1..][k - 1];
      rel
  }

  const HeaderTitle: string := "\n# Fact Check: \""
  const HeaderAssessment: string := "\"\n\n## Assessment: "

  /** The report's opening: the quoted claim, the assessment between two
      copies of its emoji ("None" for an absent one), and the explanation
      in bold. */
  function ReportHeader(result: CheckResult): (h: string)
    ensures StartsWith(h, HeaderTitle + result.claim + HeaderAssessment + Emoji(result.assessment) + " "
                          + Show(result.assessment) + " " + Emoji(result.assessment))
    ensures Contains(h, "**" + Show(result.explanation) + "**")
    ensures EndsWith(h, "\n\n## Research Summary:\n")
  {
    var emoji := Emoji(result.assessment);
    var line := HeaderTitle + result.claim + HeaderAssessment + emoji + " " + Show(result.assessment) + " " + emoji;
    Layout4(line, "\n\n", "**" + Show(result.explanation) + "**", "\n\n## Research Summary:\n");
    line + "\n\n" + ("**" + Show(result.explanation) + "**") + "\n\n## Research Summary:\n"
  }

  const AuthorsField: string := "\n**Authors:** "
  const RelevanceField: string := "\n**Relevance:** "
  const PositionField: string := "\n**Position on Claim:** "
  const FindingsField: string := "\n**Key Findings:** "
  const AnalysisField: string := "\n**Analysis:** "

  /** The section of paper number i (1-based); see PaperSectionLayout. */
  function PaperSection(p: PaperDict, i: nat, analyses: seq<AnalysisEntry>): string
  {
    "\n### Paper " + NatToString(i) + ": " + p.title.GetOr("Paper " + NatToString(i))
    + AuthorsField + (AuthorsText(p.authors) + " (" + p.year.GetOr("") + ")")
    + RelevanceField + p.relevance.GetOr("Not assessed")
    + PositionField + p.position.GetOr("Not determined")
    + FindingsField + p.keyFindings.GetOr("No specific findings extracted.")
    + AnalysisField + (RelationFor(analyses, i) + "\n\n")
  }

  /** A paper's section is headed by its number and its title ("Paper i"
      when untitled), then shows each field with its default for a missing
      key: the authors ("Unknown") with the year (empty) in parentheses,
      relevance "Not assessed", position "Not determined", key findings
      "No specific findings extracted.", and last the relation of the
      analysis numbered i. */
  lemma PaperSectionLayout(p: PaperDict, i: nat, analyses: seq<AnalysisEntry>)
    ensures var s := PaperSection(p, i, analyses);
            StartsWith(s, "\n### Paper " + NatToString(i) + ": " + p.title.GetOr("Paper " + NatToString(i)) + AuthorsField)
            && Contains(s, AuthorsField + (AuthorsText(p.authors) + " (" + p.year.GetOr("") + ")") + RelevanceField)
            && Contains(s, RelevanceField + p.relevance.GetOr("Not assessed") + PositionField)
            && Contains(s, PositionField + p.position.GetOr("Not determined") + FindingsField)
            && Contains(s, FindingsField + p.keyFindings.GetOr("No specific findings extracted.") + AnalysisField)
            && EndsWith(s, AnalysisField + (RelationFor(analyses, i) + "\n\n"))
  {
    Layout11("\n### Paper " + NatToString(i) + ": " + p.title.GetOr("Paper " + NatToString(i)),
             AuthorsField, AuthorsText(p.authors) + " (" + p.year.GetOr("") + ")",
             RelevanceField, p.relevance.GetOr("Not assessed"),
             PositionField, p.position.GetOr("Not determined"),
             FindingsField, p.keyFindings.GetOr("No specific findings extracted."),
             AnalysisField, RelationFor(analyses, i) + "\n\n");
  }

  /** The reference line of paper number i (1-based): the number, then the
      title ("Paper i" when untitled) as a link to the url ("#" when there
      is none), ended by a line feed. The number reads back as i. */
  function ReferenceLine(p: PaperDict, i: nat): (line: string)
    ensures StartsWith(line, NatToString(i) + ". [" + p.title.GetOr("Paper " + NatToString(i)) + "](")
    ensures EndsWith(line, "](" + p.url.GetOr("#") + ")\n")
    ensures DigitsValue(line[..|NatToString(i)|]) == i
    ensures line[|line| - 1] == '\n'
  {
    var num := NatToString(i);
    var title := p.title.GetOr("Paper " + NatToString(i));
    Layout4(num + ". [" + title, "](", p.url.GetOr("#"), ")\n");
    assert (num + ". [" + title + "](" + p.url.GetOr("#") + ")\n")[..|num|] == num;
    DigitsValueOfNatToString(i);
    num + ". [" + title + "](" + p.url.GetOr("#") + ")\n"
  }

  /** The sections of the papers, numbered from 1, in the papers' order. */
  function Sections(papers: seq<PaperDict>, analyses: seq<AnalysisEntry>): (ss: seq<string>)
    ensures |ss| == |papers|
    ensures forall i :: 0 <= i < |papers| ==> ss[i] == PaperSection(papers[i], i + 1, analyses)
  {
    seq(|papers|, i requires 0 <= i < |papers| => PaperSection(papers[i], i + 1, analyses))
  }

  /** The reference lines of the papers, numbered from 1, in the papers'
      order. */
  function ReferenceLines(papers: seq<PaperDict>): (ls: seq<string>)
    ensures |ls| == |papers|
    ensures forall i :: 0 <= i < |papers| ==> ls[i] == ReferenceLine(papers[i], i + 1)
  {
    seq(|papers|, i requires 0 <= i < |papers| => ReferenceLine(papers[i], i + 1))
  }

  const ReferencesHeading: string := "\n## References:\n"
  const BottomLine: string :=
    "\n## Bottom Line:\nThis fact check was conducted using scientific research papers and academic sources."
    + " The assessment is based on the available evidence at the time of checking. As scientific"
    + " understanding evolves, assessments may change with new research.\n        "

  /** The report, as a value: the header, the paper sections, the
      references heading and lines, and the closing paragraph. */
  function Report(result: CheckResult, papers: seq<PaperDict>): (report: string)
    ensures StartsWith(report, ReportHeader(result))
    ensures EndsWith(report, ReferencesHeading + Concat(ReferenceLines(papers)) + BottomLine)
  {
    Layout5(ReportHeader(result), Concat(Sections(papers, result.paperAnalyses)),
            ReferencesHeading, Concat(ReferenceLines(papers)), BottomLine);
    ReportHeader(result) + Concat(Sections(papers, result.paperAnalyses))
    + ReferencesHeading + Concat(ReferenceLines(papers)) + BottomLine
  }

  /** Every paper has its numbered section in the report. */
  lemma ReportHasEverySection(result: CheckResult, papers: seq<PaperDict>, i: nat)
    requires i < |papers|
    ensures Contains(Report(result, papers), PaperSection(papers[i], i + 1, result.paperAnalyses))
  {
    var ss := Sections(papers, result.paperAnalyses);
    var ls := ReferenceLines(papers);
    ConcatSplit(ss, i);
    ContainsPiece(ReportHeader(result), Concat(ss), ReferencesHeading, Concat(ls), BottomLine,
                  Concat(ss[..i]), ss[i], Concat(ss[i + 1..]));
  }

  /** Every paper has its numbered reference line in the report. */
  lemma ReportHasEveryReference(result: CheckResult, papers: seq<PaperDict>, i: nat)
    requires i < |papers|
    ensures Contains(Report(result, papers), ReferenceLine(papers[i], i + 1))
  {
    var ss := Sections(papers, result.paperAnalyses);
    var ls := ReferenceLines(papers);
    ConcatSplit(ls, i);
    ContainsPiece(ReportHeader(result), Concat(ss), ReferencesHeading, Concat(ls), BottomLine,
                  Concat(ls[..i]), ls[i], Concat(ls[i + 1..]));
  }

  /** generate_human_friendly_response, accumulating the text with `+=`. */
  method GenerateReport(result: CheckResult, papers: seq<PaperDict>) returns (response: string)
    ensures response == Report(result, papers)
  {
    response := ReportHeader(result);
    response := AppendAll(response, Sections(papers, result.paperAnalyses));
    response := response + ReferencesHeading;
    response := AppendAll(response, ReferenceLines(papers));
    response := response + BottomLine;
  }

  /** A `+=` loop over the pieces of a report part. */
  method AppendAll(prefix: string, parts: seq<string>) returns (response: string)
    ensures response == prefix + Concat(parts)
  {
    response := prefix;
    for i := 0 to |parts|
      invariant response == prefix + Concat(parts[..i])
    {
      ConcatSnoc(parts[..i], parts[i]);
      assert parts[..i + 1] == parts[..i] + [parts[i]];
      response := response + parts[i];
    }
    assert parts[..|parts|] == parts;
  }

  /** The references part has one line per paper: with titles and urls
      free of line breaks, it holds exactly one line feed per paper. */
  lemma ReferenceLinesCount(papers: seq<PaperDict>)
    requires forall i :: 0 <= i < |papers| ==> '\n' !in papers[i].title.GetOr("Paper " + NatToString(i + 1))
                                               && '\n' !in papers[i].url.GetOr("#")
    ensures CountChar(Concat(ReferenceLines(papers)), '\n') == |papers|
  {
    var ls := ReferenceLines(papers);
    forall k | 0 <= k < |ls|
      ensures CountChar(ls[k], '\n') == 1
    {
      ReferenceLineCount(papers[k], k + 1);
    }
    ConcatCount(ls, '\n');
  }

  /** One reference line holds one line feed, at its end. */
  lemma ReferenceLineCount(p: PaperDict, n: nat)
    requires '\n' !in p.title.GetOr("Paper " + NatToString(n)) && '\n' !in p.url.GetOr("#")
    ensures CountChar(ReferenceLine(p, n), '\n') == 1
  {
    var title := p.title.GetOr("Paper " + NatToString(n));
    var url := p.url.GetOr("#");
    var num := NatToString(n);
    NatToStringHasNoLineFeed(n);
    CountCharAppend(num + ". [" + title + "](" + url, ")\n", '\n');
    CountCharAppend(num + ". [" + title + "](", url, '\n');
    CountCharAppend(num + ". [" + title, "](", '\n');
    CountCharAppend(num + ". [", title, '\n');
    CountCharAppend(num, ". [", '\n');
    CountCharAbsent(title, '\n');
    CountCharAbsent(url, '\n');
    CountCharAbsent(num, '\n');
    assert CountChar(". [", '\n') == 0;
    assert CountChar("](", '\n') == 0;
    assert CountChar(")\n", '\n') == 1;
  }

  lemma NatToStringHasNoLineFeed(n: nat)
    ensures '\n' !in NatToString(n)
  {
    var s := NatToString(n);
    assert forall i :: 0 <= i < |s| ==> IsAsciiDigit(s[i]);
  }
}
