# Factifi fact-check service and client, modelled in Dafny

Factifi checks a claim against academic research. The backend takes a claim
and works through these steps:

- it extracts search keywords, asking the language model or falling back to
  a stop-word filter;
- it searches Google Scholar through SerpAPI and normalises each result into
  a paper record, fetching an abstract when the snippet is short;
- it asks the model for each paper's relevance, key findings and position;
- it asks the model for an overall assessment;
- it assembles the result dictionary and a markdown report.

The model's replies are cleaned and parsed by a JSON cleaner. When that
fails, a hand-written extractor recovers what it can. The Next.js client
covers the following:

- a chat session that posts a claim and shows the reply;
- a store that hands a claim from other pages to the chat page, with an
  auto-submit flag;
- a result card with badge colours, icons and per-paper panels;
- a relevance pie chart;
- a searchable history page;
- a sidebar with a search box.

A test script reads claims from a text file and saves each result under a
file name derived from the claim.

One Dafny module stands for each source file:

| module | source |
|---|---|
| `Pipeline` | `fact_check_pipeline.py` |
| `LlmService` | `llm_service.py` |
| `SearchService` | `search_service.py` |
| `Schemas` | `schemas.py` |
| `Exceptions` | `exceptions.py` |
| `Store` | `store.ts` |
| `Session` | `fact-check-interface.tsx` |
| `ClientTypes` | `fact-check.ts` |
| `ResultView` | `fact-check-result.tsx` |
| `Chart` | `paper-analysis-chart.tsx` |
| `History` | `history-content.tsx` |
| `Sidebar` | `app-sidebar.tsx` |
| `TestCases` | `test_api.py` |

Two shared modules support them:

- `Common` holds `Option` and `Result`.
- `Text` holds the string primitives of both runtimes, over ASCII:
  - `str.strip`, `str.split`, `str.lower`, `str.isalnum`, `in` and `str()`;
  - `String.prototype.trim`, `toLowerCase` and `includes`.

Code that changes state step by step is written as methods with loops, and
each method is proved equal to a function that specifies it. This covers:

- the keyword bigram loop;
- the findings loop;
- the report's `+=` loops;
- the reference loop;
- the author coercion loop;
- the abstract-marker loop;
- the fall-back `finditer` loop;
- the relevance `reduce`;
- the test-file loop.

The client's stateful parts are classes whose methods `modify` their
fields:

- the session, `Session.FactCheckSession`;
- the store, `Store.FactCheckStore`;
- the sidebar search box, `Sidebar.SearchBox`.

Every call to something outside the code is a parameter of the operation
that makes it:

- The language model's reply is an `LlmOutcome`: an error, or the reply
  text.
- `json.loads` is a function parameter `decode` that yields `NotJson`, a
  `JsonObject` reduced to the keys the code reads, or some other JSON value.
- The SerpAPI answer is a function parameter `serp` of the query and the
  limit.
- The paper page is a function parameter `pages` of the URL.
- The client's `fetch` ends in a `FetchOutcome`.

The result card shows its detailed report exactly when the report text is
not empty (`ResultView.ShowsReport`, fact-check-result.tsx:263).

## Model

| member | source | states |
|---|---|---|
| `Exceptions.Raise` | backend/app/core/exceptions.py:24-49 | The status is 500 exactly for a missing API key, 503 exactly for the LLM or the search service, and 400 exactly for validation. The detail is the one given, or else the factory's own default. |
| `Exceptions.RaiseIsErrorStatus` | backend/app/core/exceptions.py:24-49 | Every factory yields an error status in 400..599, below 500 exactly for validation. |
| `Schemas.ParseAssessment` | backend/app/api/models/schemas.py:7-11 | Exactly the three assessment labels are accepted, each as the member that carries it. |
| `Schemas.AssessmentRoundTrip` | backend/app/api/models/schemas.py:7-11 | Parsing a member's label gives back the member. |
| `Schemas.ParseRelevance` | backend/app/api/models/schemas.py:14-19 | Exactly High, Medium, Low and Unknown are accepted, each as its member. |
| `Schemas.RelevanceRoundTrip` | backend/app/api/models/schemas.py:14-19 | Parsing a relevance label gives back the member. |
| `Schemas.ParsePosition` | backend/app/api/models/schemas.py:22-27 | Exactly Supports, Refutes, Neutral and "Not assessed" are accepted, each as its member. |
| `Schemas.PositionRoundTrip` | backend/app/api/models/schemas.py:22-27 | Parsing a position label gives back the member. |
| `Schemas.ValidateRequest` | backend/app/api/models/schemas.py:30-32 | A claim is accepted, unchanged, exactly when its length is in 10..500. |
| `Schemas.DefaultPaper` | backend/app/api/models/schemas.py:52-63 | A paper built from title and snippet alone has empty url, year, publication and key findings, no authors, 0 citations, relevance Unknown and position "Not assessed". |
| `Schemas.ValidateRelevance` | backend/app/api/models/schemas.py:61 | A missing relevance defaults to Unknown. A present one is accepted exactly when it is one of the four labels. |
| `Schemas.ValidatePosition` | backend/app/api/models/schemas.py:63 | A missing position defaults to "Not assessed". A present one is accepted exactly when it is one of the four labels. |
| `Schemas.ValidatePaper` | backend/app/api/models/schemas.py:52-63 | A paper is accepted exactly when its relevance and position validate. The other fields pass through unchanged. |
| `Schemas.DefaultResponse` | backend/app/api/models/schemas.py:66-74 | A response built from claim, assessment and explanation has empty analyses, references and papers and an empty report. |
| `LlmService.CodeBlockSpan` | backend/app/services/llm_service.py:77-78 | The fenced-block search finds the first fence and the first fence after it, skipping an optional "json" tag. Absent a match, no two fences are three or more apart. |
| `LlmService.JsonTagHoldsNoFence` | backend/app/services/llm_service.py:77 | A closing fence cannot start inside the "json" tag. |
| `LlmService.WorkingText` | backend/app/services/llm_service.py:76-83 | The text searched for braces is the fenced block's content, stripped, when there is a fence, and the whole stripped reply otherwise. |
| `LlmService.BraceSpan` | backend/app/services/llm_service.py:86-87 | There is a `\{.+\}` span exactly when some '{' has a '}' at least two characters after it. The span then runs from the first '{' to the last '}' of the text. |
| `LlmService.NarrowToBraces` | backend/app/services/llm_service.py:85-92 | The brace span when there is one, otherwise the stripped text. The result is never padded with blanks. |
| `LlmService.CleanJsonText` | backend/app/services/llm_service.py:66-92 | The cleaned text is the brace span of the working text, or the working text itself when it has none. It is stripped, and brace-delimited when a span exists. Without a fence or a brace span it is `text.strip()`. |
| `LlmService.CleanFencedText` | backend/app/services/llm_service.py:78-92 | With a fence, the cleaned text is the brace span of the stripped block content, or that content itself when it has no span. |
| `LlmService.CleanPlainText` | backend/app/services/llm_service.py:76-92 | A reply with no fence and no '{' is only stripped. |
| `LlmService.ParseJsonResponse` | backend/app/services/llm_service.py:94-109 | The parse never surfaces a decode error. A decodable cleaned text gives its decoding; otherwise the result is the fall-back object. |
| `LlmService.FallbackAssessment` | backend/app/services/llm_service.py:126-132 | "Supported" wins over "Refuted", and the default is "Lacks Sufficient Evidence". |
| `LlmService.QuotedAt` | backend/app/services/llm_service.py:135 | `"([^"]+)"` at a position: a quote, then at least one non-quote character. |
| `LlmService.ExplanationAt` | backend/app/services/llm_service.py:135 | The explanation pattern anchored at a position starts with the key and captures a non-empty text. |
| `LlmService.ExplanationSearch` | backend/app/services/llm_service.py:135-136 | The search returns the leftmost position, at or after its start, where the explanation pattern matches, and None exactly when it matches nowhere from there. |
| `LlmService.FirstExplanation` | backend/app/services/llm_service.py:135-140 | `re.search` returns None exactly when the pattern matches nowhere. Otherwise it returns the capture of the match at the leftmost matching position. |
| `LlmService.RelationAt` | backend/app/services/llm_service.py:144 | The relation tail anchored at a position starts with its key and captures a non-empty text. |
| `LlmService.FirstRelation` | backend/app/services/llm_service.py:144 | The lazy `.*?` takes the first position at which the tail matches. |
| `LlmService.MatchAt` | backend/app/services/llm_service.py:144 | A whole analysis match starts with the paper-number key and carries a non-empty relation. |
| `LlmService.NextMatch` | backend/app/services/llm_service.py:144-145 | The next match starts at or after the search position and is non-empty. |
| `LlmService.NextMatchIsMatch` | backend/app/services/llm_service.py:144-145 | What the search reports is a match at its start. |
| `LlmService.NextMatchLeftmost` | backend/app/services/llm_service.py:144-145 | No match starts before the one the search reports. |
| `LlmService.Matches` | backend/app/services/llm_service.py:144-147 | The `finditer` matches are ordered and do not overlap. |
| `LlmService.MatchesAreMatches` | backend/app/services/llm_service.py:144-147 | Every reported element is a match of the pattern. |
| `LlmService.MatchesCover` | backend/app/services/llm_service.py:144-147 | Every position where the pattern matches lies inside some reported match. |
| `LlmService.MatchesEmptyIff` | backend/app/services/llm_service.py:144-147 | `finditer` is empty exactly when the pattern matches nowhere. |
| `LlmService.ToEntries` | backend/app/services/llm_service.py:147-153 | There is one analysis entry per match, in order, with the match's number and relation. |
| `LlmService.FallbackReplyKeys` | backend/app/services/llm_service.py:124-154 | The fall-back dictionary has exactly the keys assessment, explanation and paper_analyses, and the assessment is one of the three labels. |
| `LlmService.FallbackExplanation` | backend/app/services/llm_service.py:134-140 | When the pattern matches nowhere, the explanation is the default text. The result is the default or a non-empty capture. |
| `LlmService.FallbackExplanationIsFirst` | backend/app/services/llm_service.py:135-138 | When the pattern matches at p and nowhere before p, the explanation is the capture of the match at p. |
| `LlmService.FallbackAnalyses` | backend/app/services/llm_service.py:142-154 | There is one analysis per pattern match, each with a non-negative paper number and a non-empty relation. |
| `LlmService.ExtractFallback` | backend/app/services/llm_service.py:111-154 | The statement-by-statement extractor yields the fall-back dictionary. |
| `LlmService.CollectAnalyses` | backend/app/services/llm_service.py:142-153 | The `finditer` loop appends exactly the entries of the matches, in order. |
| `SearchService.SearchQuery` | backend/app/services/search_service.py:35 | The query is the keywords joined by spaces, followed by " research paper academic". |
| `SearchService.AltWord` | backend/app/services/search_service.py:42 | A keyword containing "cause" becomes "effect of", and any other keyword is kept. So an alternative word never contains "cause". |
| `SearchService.EffectOfLacksCause` | backend/app/services/search_service.py:42 | "effect of" has no occurrence of "cause". |
| `SearchService.AltWords` | backend/app/services/search_service.py:42 | There is one alternative word per keyword, in order. |
| `SearchService.BuildQueries` | backend/app/services/search_service.py:32-43 | Two queries are built, or three when there are two or more keywords. The first is the basic query, the quoted pair query comes second when present, and the meta-analysis query comes last. |
| `SearchService.Lookup` | backend/app/services/search_service.py:83-87 | A key is found exactly when some entry carries it, and the value found is that entry's value. |
| `SearchService.AuthorsOfShape` | backend/app/services/search_service.py:76-96 | A list keeps its length and order with each entry coerced. A string becomes a one-element list, and so does any other value. |
| `SearchService.AuthorNameCases` | backend/app/services/search_service.py:80-90 | An object with "name" gives its name. Otherwise it gives its first value, or "Unknown" when it is empty. |
| `SearchService.NormaliseAuthors` | backend/app/services/search_service.py:76-96 | The author loop yields the coerced list. |
| `SearchService.Candidate` | backend/app/services/search_service.py:139-146 | A marker gives a candidate exactly when it occurs in the lower-cased page and more than 100 characters of the page, the marker included, start at its first occurrence. The candidate is the page from that occurrence on, exactly 500 characters long or up to the page's end when fewer remain. |
| `SearchService.AbstractFrom` | backend/app/services/search_service.py:138-146 | The abstract is the candidate of some marker, or None when no marker has one. |
| `SearchService.PaperDetails` | backend/app/services/search_service.py:127-152 | An abstract exists only for a 200 page, and then it is 101..500 characters long. |
| `SearchService.FetchPaperDetails` | backend/app/services/search_service.py:127-152 | A transport failure or a non-200 status gives no abstract. Otherwise the page is searched by `FindAbstract`, and the result is the abstract of `PaperDetails`. |
| `SearchService.FindAbstract` | backend/app/services/search_service.py:138-146 | The marker loop with its `break` yields `AbstractFrom` of the page. |
| `SearchService.WithAbstract` | backend/app/services/search_service.py:104-111 | Only the snippet may change. It changes only when it is shorter than 100 characters, the url is set and the page has an abstract, and it then becomes that abstract. |
| `SearchService.PrefixUpTo` | backend/app/services/search_service.py:61 | `xs[:limit]` for either sign of the limit. |
| `SearchService.FoundPapersOrder` | backend/app/services/search_service.py:59-113 | At most `limit` papers come back, one per leading result and in order. None come back when "organic_results" is missing. |
| `SearchService.NormaliseDefaults` | backend/app/services/search_service.py:62-100 | Each field takes its value from the result or its default. Without publication info, authors, year and publication stay empty. |
| `SearchService.SnippetReplacement` | backend/app/services/search_service.py:104-111 | The snippet is replaced exactly when it is short, the url is set and the page yields an abstract. |
| `SearchService.SearchOutcome` | backend/app/services/search_service.py:51-115 | A transport failure and a non-200 status give the two error messages. A 200 answer gives the normalised papers. |
| `SearchService.SearchPapers` | backend/app/services/search_service.py:17-115 | The method builds the queries, sends the first and walks the results, and yields `SearchOutcome`. |
| `SearchService.NormaliseResults` | backend/app/services/search_service.py:59-111 | The results loop gives one normalised paper per result, in order. |
| `SearchService.BuildPaper` | backend/app/services/search_service.py:62-100 | The record built in the loop body is `BasePaper`. |
| `Pipeline.Unstopped` | backend/app/services/fact_check_pipeline.py:74 | Exactly the words not in the stop list are kept, and they appear in claim order: the result is a subsequence of the claim's words. |
| `Pipeline.UnstoppedAppend` | backend/app/services/fact_check_pipeline.py:74 | The filter of a concatenation is the concatenation of the filters, so each occurrence is kept or dropped on its own. |
| `Pipeline.UnstoppedOne` | backend/app/services/fact_check_pipeline.py:74 | A single word is kept exactly when it is not a stop word. |
| `Pipeline.InteriorCauses` | backend/app/services/fact_check_pipeline.py:75-78 | The position of the first "causes" when it is neither the first nor the last word. None exactly when "causes" is absent, the first word is "causes", or "causes" occurs only as the last word. |
| `Pipeline.Bigrams` | backend/app/services/fact_check_pipeline.py:83-85 | One bigram per adjacent pair, each being the two words joined by a space. |
| `Pipeline.FallbackKeywords` | backend/app/services/fact_check_pipeline.py:71-89 | The fall-back never returns more than five keywords. |
| `Pipeline.FallbackKeywordExtraction` | backend/app/services/fact_check_pipeline.py:61-89 | The method yields `FallbackKeywords` of the claim. |
| `Pipeline.KeywordExtraction` | backend/app/services/fact_check_pipeline.py:71-89 | The loops over the claim's words yield `KeywordsOf` of those words. |
| `Pipeline.ExtendWithCombinations` | backend/app/services/fact_check_pipeline.py:82-89 | The combinations loop and the `extend` yield the extended list. |
| `Pipeline.ExtendedShape` | backend/app/services/fact_check_pipeline.py:82-89 | The keywords come first. With five or more, exactly the first five survive. With two to four, the first bigrams follow, up to five in all. |
| `Pipeline.KeywordsWithoutInteriorCauses` | backend/app/services/fact_check_pipeline.py:71-89 | Without an interior "causes", the result's first elements are, position by position, the non-stop claim words, so they keep claim order. Bigrams of consecutive such words follow. With five or more such words the result is exactly the first five. |
| `Pipeline.KeywordsWithInteriorCauses` | backend/app/services/fact_check_pipeline.py:75-89 | With an interior "causes" at i, the result is exactly [w[i-1], "causes", w[i+1], w[i-1]+" causes", "causes "+w[i+1]]. |
| `Pipeline.SplitKeywords` | backend/app/services/fact_check_pipeline.py:53-54 | Keyword i is the stripped i-th comma piece of the reply. There is one piece more than the reply has commas, and no piece holds a comma or is padded. |
| `Pipeline.SplitKeywordsAppend` | backend/app/services/fact_check_pipeline.py:53-54 | A comma splits the reply into the keywords before it followed by the keywords after it. |
| `Pipeline.SplitKeywordsOne` | backend/app/services/fact_check_pipeline.py:53-54 | A reply without a comma gives one keyword, the reply stripped. |
| `Pipeline.SplitKeywordsRoundTrip` | backend/app/services/fact_check_pipeline.py:53-54 | For a blank-free reply, joining the pieces with commas gives the reply back. |
| `Pipeline.ExtractKeywords` | backend/app/services/fact_check_pipeline.py:51-59 | A failed model call gives the fall-back keywords. A reply gives exactly its comma pieces, `SplitKeywords` of the reply. |
| `Pipeline.ApplyFindings` | backend/app/services/fact_check_pipeline.py:149 | `paper.update`: each of the three keys the reply has is overwritten, and nothing else changes. |
| `Pipeline.EnhancePaper` | backend/app/services/fact_check_pipeline.py:107-162 | A snippet shorter than 50 characters gives Low with the fixed text. A failed call gives Unknown, "Error processing paper." and Neutral. A decoded object is merged in. Title, snippet and the other fields never change. |
| `Pipeline.EnhancedHasFindings` | backend/app/services/fact_check_pipeline.py:113-117 | A short snippet or a failed call always leaves a relevance and key findings. |
| `Pipeline.ExtractPaperFindings` | backend/app/services/fact_check_pipeline.py:102-164 | The findings loop keeps the number and order of papers and enhances each one. |
| `Pipeline.FixedAnalysis` | backend/app/services/fact_check_pipeline.py:271-275 | The fixed analysis is "Lacks Sufficient Evidence" with the given explanation and no paper analyses. |
| `Pipeline.AnalyzeWithLlm` | backend/app/services/fact_check_pipeline.py:252-275 | The analysis is never a decode error. A failed call gives the technical-issues analysis, and a reply goes to `parse_json_response`. |
| `Pipeline.AuthorsText` | backend/app/services/fact_check_pipeline.py:331 | Missing or empty authors give "Unknown". Otherwise the names are joined by ", ". |
| `Pipeline.References` | backend/app/services/fact_check_pipeline.py:409-413 | There is one reference per paper, in order, with the "Untitled" and "#" defaults. |
| `Pipeline.EnhancedPapers` | backend/app/services/fact_check_pipeline.py:391-396 | There is one enhanced paper per found paper. |
| `Pipeline.OutcomeReferences` | backend/app/services/fact_check_pipeline.py:384-423 | The result echoes the claim and holds one reference per enhanced paper, and there is one enhanced paper per found paper. The result is a search error exactly when the search failed. |
| `Pipeline.OutcomeFixedAnalyses` | backend/app/services/fact_check_pipeline.py:392-406 | With no papers, the result is the fixed no-papers analysis with no references. With papers and a failed analysis call, it is the technical-issues analysis. |
| `Pipeline.FactCheck` | backend/app/services/fact_check_pipeline.py:368-423 | `fact_check`, step by step, yields `FactCheckOutcome`. |
| `Pipeline.CheckFound` | backend/app/services/fact_check_pipeline.py:391-423 | The steps after the search yield `OutcomeAfterSearch`. |
| `Pipeline.CollectReferences` | backend/app/services/fact_check_pipeline.py:409-413 | The references loop yields `References`. |
| `Pipeline.Emoji` | backend/app/services/fact_check_pipeline.py:307-316 | ✅ exactly for "Supported", ❌ exactly for "Refuted", and ⚠️ exactly for anything else. |
| `Pipeline.RelationFor` | backend/app/services/fact_check_pipeline.py:337-339 | The relation of the first analysis numbered i. The fixed text when there is none. |
| `Pipeline.ReportHeader` | backend/app/services/fact_check_pipeline.py:319-327 | The header starts with the quoted claim and the assessment between two copies of its emoji. It contains the explanation in bold and ends with the "## Research Summary:" heading. |
| `Pipeline.PaperSectionLayout` | backend/app/services/fact_check_pipeline.py:329-349 | The section of paper i starts with its number and title, "Paper i" when untitled. It contains the authors line, with "Unknown" authors and an empty year by default. It contains the relevance, position and key-findings lines with their defaults "Not assessed", "Not determined" and "No specific findings extracted.". It ends with the relation of the analysis numbered i. |
| `Pipeline.ReferenceLine` | backend/app/services/fact_check_pipeline.py:355-358 | The line starts with the paper's number, which reads back as i, and its title ("Paper i" when untitled) in brackets. It ends with the url, "#" when absent, in parentheses, and a line feed. |
| `Pipeline.Sections` | backend/app/services/fact_check_pipeline.py:329-349 | There is one section per paper, and element i is the section of paper i, numbered i+1. |
| `Pipeline.ReferenceLines` | backend/app/services/fact_check_pipeline.py:355-358 | There is one line per paper, and element i is the reference line of paper i, numbered i+1. |
| `Pipeline.Report` | backend/app/services/fact_check_pipeline.py:319-364 | The report starts with the header and ends with the references heading, the reference lines and the bottom line. |
| `Pipeline.ReportHasEverySection` | backend/app/services/fact_check_pipeline.py:329-349 | The report contains the numbered section of every paper. |
| `Pipeline.ReportHasEveryReference` | backend/app/services/fact_check_pipeline.py:355-358 | The report contains the numbered reference line of every paper. |
| `Pipeline.GenerateReport` | backend/app/services/fact_check_pipeline.py:291-366 | The `+=` loops yield the header, the sections, the references and the bottom line, in that order. |
| `Pipeline.AppendAll` | backend/app/services/fact_check_pipeline.py:329-358 | A `+=` loop appends its parts in order. |
| `Pipeline.ReferenceLinesCount` | backend/app/services/fact_check_pipeline.py:355-358 | With single-line titles and urls, the references block has exactly one line per paper. |
| `Pipeline.ReferenceLineCount` | backend/app/services/fact_check_pipeline.py:358 | A reference line with a single-line title and url holds exactly one line feed. |
| `Store.FactCheckStore.constructor` | frontend/lib/store.ts:11-13 | The store starts with an empty claim and auto-submit off. |
| `Store.FactCheckStore.SetClaim` | frontend/lib/store.ts:14 | Only the claim changes. |
| `Store.FactCheckStore.SetAutoSubmit` | frontend/lib/store.ts:15 | Only the flag changes. |
| `Store.FactCheckStore.ResetClaim` | frontend/lib/store.ts:16 | Both fields return to their initial values. |
| `Store.ResetClaimIdempotent` | frontend/lib/store.ts:16 | Resetting twice is resetting once. |
| `Store.HandOff` | frontend/lib/store.ts:14-15 | `setClaim` then `setAutoSubmit(true)` leaves the claim with auto-submit on. |
| `Session.FactCheckSession.constructor` | frontend/components/fact-check-interface.tsx:23-29 | The initial state: empty input, not loading, no result, no error, no messages, chat tab. |
| `Session.FactCheckSession.Edit` | frontend/components/fact-check-interface.tsx:162 | Typing changes only the input. |
| `Session.FactCheckSession.SubmitWith` | frontend/components/fact-check-interface.tsx:41-50 | A blank claim or a request in flight changes nothing. Otherwise exactly one user message is appended, loading starts, error and result are cleared, and the claim is sent. |
| `Session.FactCheckSession.Submit` | frontend/components/fact-check-interface.tsx:41-50 | A submit is refused exactly when the Send button is disabled (lines 185-189). |
| `Session.FactCheckSession.Complete` | frontend/components/fact-check-interface.tsx:52-90 | Loading always ends. A response becomes the result, appends exactly one assistant message, opens the result tab and clears the input. A failure only sets the error text. |
| `Session.FactCheckSession.KeyDown` | frontend/components/fact-check-interface.tsx:93-98 | Enter without Shift acts as Submit: it is refused exactly when Send is disabled, and then nothing changes. Otherwise one user message is appended, loading starts, error and result are cleared, and input and tab are kept. Any other key changes nothing. |
| `Session.FactCheckSession.Reset` | frontend/components/fact-check-interface.tsx:100-106 | The result, error, input and messages are cleared and the chat tab opens. Loading is left as it is. |
| `Session.FactCheckSession.PrefillEffect` | frontend/components/fact-check-interface.tsx:31-39 | A store claim is copied into the input. Without auto-submit nothing else changes. With auto-submit, the input of the effect's render is submitted and the store is reset; a send starts loading and clears error and result, and a refusal keeps them. The tab never changes. |
| `Session.FactCheckSession.PrefillEffectIntended` | frontend/components/fact-check-interface.tsx:31-39 | As the effect above, with every field stated, except that the store's claim is submitted. |
| `Session.FreshMountHandOff` | frontend/components/fact-check-interface.tsx:23-39 | On a fresh page, a handed-over claim lands in the input but is not sent as written. It is sent when the effect submits the store claim. |
| `Session.ResponseAfterReset` | frontend/components/fact-check-interface.tsx:52-106 | A response arriving after a reset still becomes the result and the only message. |
| `Session.FailureKeepsClaim` | frontend/components/fact-check-interface.tsx:85-90 | After a failure the user message and the input remain, and Send is enabled again. |
| `ResultView.AssessmentColor` | frontend/components/fact-check-result.tsx:26-40 | The badge class is the class of the assessment's arm. |
| `ResultView.AssessmentIcon` | frontend/components/fact-check-result.tsx:43-57 | The icon is the icon of the assessment's arm. |
| `ResultView.BadgeOfInjective` | frontend/components/fact-check-result.tsx:26-40 | Distinct arms have distinct classes. |
| `ResultView.IconOfInjective` | frontend/components/fact-check-result.tsx:43-57 | Distinct arms have distinct icons. |
| `ResultView.ColorAndIconAgree` | frontend/components/fact-check-result.tsx:26-57 | Two assessments share a colour exactly when they share an icon, and exactly when they share an arm. |
| `ResultView.CategoryIgnoresCase` | frontend/components/fact-check-result.tsx:27 | An assessment and its lower-case form are treated alike. |
| `ResultView.BackendLabelsFallThrough` | frontend/components/fact-check-result.tsx:26-40 | The backend's "Supported" and "Refuted" fall to the blue default arm. |
| `ResultView.InsufficientLabelIsUncertain` | frontend/components/fact-check-result.tsx:34-36 | "Lacks Sufficient Evidence" gets the yellow arm. |
| `ResultView.PaperAt` | frontend/components/fact-check-result.tsx:165 | `papers[n - 1]` is defined exactly for 1 <= n <= length. |
| `ResultView.OrElse` | frontend/components/fact-check-result.tsx:165-192 | `||` falls back on a missing or empty value. |
| `ResultView.ShowsReport` | frontend/components/fact-check-result.tsx:263 | The report panel is shown exactly when the response's report text is non-empty. |
| `ResultView.PanelFor` | frontend/components/fact-check-result.tsx:156-205 | A panel shows the analysis number and relation. For an in-range number it shows that paper's title ("Paper n" when empty), its authors joined by ", " ("Unknown" when absent or empty), its relevance ("Unknown") and its key findings ("Not specified"), each default taken when the field is missing or empty, and its url as the link. An out-of-range number shows "Paper n", "Unknown", "Unknown", "Not specified" and no link. |
| `ResultView.Panels` | frontend/components/fact-check-result.tsx:156 | There is one panel per analysis, in order. |
| `ResultView.PanelsNeverBlank` | frontend/components/fact-check-result.tsx:165-192 | No panel shows an empty title, authors, relevance or key findings. |
| `ResultView.SourceCards` | frontend/components/fact-check-result.tsx:215-220 | There is one source card per reference, in order. |
| `Chart.RelevanceLabel` | frontend/components/paper-analysis-chart.tsx:19 | A missing or empty relevance counts as "Unknown". |
| `Chart.Labels` | frontend/components/paper-analysis-chart.tsx:17-19 | There is one label per paper. |
| `Chart.Bump` | frontend/components/paper-analysis-chart.tsx:20 | Only the label's slice grows, or a slice of one is added at the end. |
| `Chart.CountRelevance` | frontend/components/paper-analysis-chart.tsx:17-24 | The reduce yields the tally of the labels. |
| `Chart.BumpCount` | frontend/components/paper-analysis-chart.tsx:20 | Counting a label raises its count by one and no other count. |
| `Chart.BumpSum` | frontend/components/paper-analysis-chart.tsx:20 | Counting raises the total by one. |
| `Chart.BumpDistinct` | frontend/components/paper-analysis-chart.tsx:20 | No label gets two slices. |
| `Chart.BumpNewName` | frontend/components/paper-analysis-chart.tsx:20 | A slice is added only for a label not yet counted. |
| `Chart.TallyCounts` | frontend/components/paper-analysis-chart.tsx:17-24 | Each label's count is the number of papers carrying it. |
| `Chart.TallySumAndDistinct` | frontend/components/paper-analysis-chart.tsx:17-29 | The counts add up to the number of papers, and each label has one slice. |
| `Chart.TallyEmptyIff` | frontend/components/paper-analysis-chart.tsx:26-29 | There are no slices exactly when there are no papers. |
| `Chart.View` | frontend/components/paper-analysis-chart.tsx:44-53 | There is no data exactly when there are no papers. Otherwise the total is the number of papers. |
| `Chart.Percent` | frontend/components/paper-analysis-chart.tsx:58 | The percentage is the nearest whole number, halves rounded up. |
| `Chart.PercentBounds` | frontend/components/paper-analysis-chart.tsx:56-58 | A count within the total gives 0..100, and a zero count gives 0. |
| `Chart.LegendEntry` | frontend/components/paper-analysis-chart.tsx:56-58 | The entry is the label's count, 0 when absent, and its percentage of the total rounded to the nearest whole number, halves rounding up. |
| `Chart.SliceColor` | frontend/components/paper-analysis-chart.tsx:32-41 | Exactly the labels other than High, Medium and Low get the Unknown colour. |
| `History.Filter` | frontend/components/history-content.tsx:91-92 | Exactly the items whose claim contains the query, ignoring case, are kept. |
| `History.FilterIsSubsequence` | frontend/components/history-content.tsx:91-92 | The filter keeps the items' order. |
| `History.FilterAppend` | frontend/components/history-content.tsx:91-92 | The filter of a concatenation is the concatenation of the filters, so each matching occurrence is kept, in order. |
| `History.FilterOne` | frontend/components/history-content.tsx:91-92 | A single item is kept exactly when it matches. |
| `History.EmptyQueryKeepsAll` | frontend/components/history-content.tsx:91-92 | The empty query keeps every item. |
| `History.QueryIgnoresCase` | frontend/components/history-content.tsx:91-92 | A query and its lower-case form filter alike. |
| `History.Tab` | frontend/components/history-content.tsx:123-184 | Each tab shows its empty card exactly when no item matches, and otherwise the matching items. The card's message is `No history items matching "q"` (or the saved tab's equivalent) for a query q, and the no-query text when the query is empty. |
| `History.NoQueryShowsAll` | frontend/components/history-content.tsx:91-92 | With no query, a tab lists every item, and shows its empty card only when there are no items. |
| `History.ItemBadge` | frontend/components/history-content.tsx:75-89 | The same four arms and classes as the result card. |
| `History.HandleHistoryItemClick` | frontend/components/history-content.tsx:18-22 | The store holds the claim with auto-submit on, and the app goes to "/". |
| `Sidebar.MainNavItems` | frontend/components/app-sidebar.tsx:34-39 | An item is active exactly when the pathname is its href. |
| `Sidebar.SettingsNavItems` | frontend/components/app-sidebar.tsx:41-45 | An item is active exactly when the pathname is its href. |
| `Sidebar.AtMostOneActive` | frontend/components/app-sidebar.tsx:34-45 | No two sidebar items are active at once. |
| `Sidebar.SearchBox.constructor` | frontend/components/app-sidebar.tsx:31 | The search box starts empty. |
| `Sidebar.SearchBox.Type` | frontend/components/app-sidebar.tsx:75 | Typing sets the query. |
| `Sidebar.SearchBox.HandleSearchSubmit` | frontend/components/app-sidebar.tsx:47-55 | A blank query changes nothing. Otherwise the untrimmed query goes to the store with auto-submit on, the app goes to "/", and the box is cleared. |
| `Sidebar.HandleReset` | frontend/components/app-sidebar.tsx:57-59 | Reset only navigates to "/", the Dashboard's href. |
| `TestCases.LineClaim` | test_api.py:22-32 | A line gives a claim exactly when its stripped form starts with '-'. The claim is the stripped line without its '-', stripped again. It is unpadded and shorter than the line. |
| `TestCases.BulletRoundTrip` | test_api.py:22-32 | An unpadded claim written as a "- " bullet line is read back unchanged. |
| `TestCases.Claims` | test_api.py:16-33 | A file gives at most one claim per line. |
| `TestCases.CategoryHeadingIsComment` | test_api.py:25-29 | Every "##" line starts with "#", so the category branch is never taken. |
| `TestCases.ReadTestCases` | test_api.py:16-33 | The loop, with its branches in source order, yields `Claims`. |
| `TestCases.ClaimsAppend` | test_api.py:21-32 | The claims of two consecutive pieces of a file are the claims of each, in file order. |
| `TestCases.ClaimsOfLine` | test_api.py:22-32 | A single line gives its claim, if it has one. |
| `TestCases.BareDashIsEmptyClaim` | test_api.py:30-32 | A bare "-" gives the empty claim. |
| `TestCases.SafeFilename` | test_api.py:73-74 | The name has length min(len, 50). Alphanumerics are kept and every other character becomes '_'. |
| `TestCases.SafeFilenameIdempotent` | test_api.py:73-74 | A safe name is its own safe name. |
| `TestCases.SafeFilenameCollides` | test_api.py:73-74 | Two claims share a result file exactly when they have the same cut length and agree before the cut, up to non-alphanumerics. |

## Left out

- The network is out: the Gemini call, the SerpAPI and paper-page requests, the client's `fetch`, and the test script's requests and file writes. Their outcomes are parameters.
- Prompts, logging, timers, the `asyncio` wrapper, FastAPI routing and middleware, settings loading, and Pydantic's own machinery are not modelled.
- The React rendering and the UI-only state are not modelled. This covers tabs within the card, expand toggles, the chart's active index and the mock history data.
- String operations work over ASCII only, without Unicode lower-casing, white space or `isalnum`. Lengths count code points.
- The regular expressions in `llm_service.py` are written out as string searches for their three fixed patterns. No regex engine is modelled.
- The JSON object returned by the model is reduced to the keys the pipeline reads. `paper.update` could also overwrite title, url or snippet with such keys, and the model does not capture that.
- A decoded JSON value that is not an object is treated as an error. In the source, `dict.update` would accept a list of pairs.
- Non-string JSON values under the string keys are not modelled, and neither are `bool` or float paper numbers (`True == 1` in the lookup of `RelationFor`).
- `paper_analyses: null` in a reply is treated like a missing key.
- `next(iter(author.values()))` on an author object is modelled by the first entry's value. Duplicate keys are not modelled.
- A non-JSON SerpAPI body is not modelled. The raw result stands for the decoded JSON.
- A `publication_info` that is present but not an object is not modelled.
- The dictionary branch of the author loop in `analyze_with_llm` is left out. After the search normalisation every author is a string, and the result only feeds the prompt.
- Two dead pieces of `fact_check_pipeline.py` are not modelled: the truncated first `generate_human_friendly_response` (lines 277-288), and the `JSONDecodeError` branches (lines 150-154 and 259-266), which `parse_json_response` makes unreachable.
- Object.entries orders integer-like keys before others. The chart keeps first-seen order for every label.
- `COLORS` lookups of inherited keys such as "constructor" are not modelled.
- Chart.Percent: `Math.round` of a float is modelled by exact integer rounding. It may differ where the float quotient lands just below a half.
- There is no response token in the client, and the model adds none. `Session.ResponseAfterReset` shows the consequence.

## Findings

| source | as written | input that shows it | evidently intended | confidence | as-written member | corrected member |
|---|---|---|---|---|---|---|
| frontend/components/fact-check-interface.tsx:31-39 | The effect calls the `handleSubmit` of the render it belongs to. That handler reads the input of that render, not the store claim just copied into it. | Hand a non-blank claim c to a freshly mounted chat page with auto-submit on, e.g. a history click or a sidebar search. The input of the first render is "", so nothing is sent. The store is reset and c only sits in the input. | The handed-over claim c is submitted. | not executed | `Session.FactCheckSession.PrefillEffect`, `Session.FreshMountHandOff` | `Session.FactCheckSession.PrefillEffectIntended` |
