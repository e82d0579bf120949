/** The academic search service: the query it builds from the keywords, the
    normalisation of the search API's organic results into paper records
    (defaults, author coercion, the limit), and the abstract heuristic
    applied to a paper's web page. The two HTTP requests are not modelled:
    the search API's answer to a query and each page's answer enter as
    function parameters. */
module SearchService {

  import opened Common
  import opened Text

  // ---------------------------------------------------------------------
  // Queries

  const QuerySuffix: string := " research paper academic"

  /** The query the service sends: the keywords joined by single spaces,
      followed by the fixed suffix. */
  function SearchQuery(keywords: seq<string>): (q: string)
    ensures |q| >= |QuerySuffix| && q[|q| - |QuerySuffix|..] == QuerySuffix
    ensures q[..|q| - |QuerySuffix|] == Join(keywords, " ")
  {
    var q := Join(keywords, " ") + QuerySuffix;
    assert q[..|q| - |QuerySuffix|] == Join(keywords, " ");
    q
  }

  /** Each word of the alternative query: "effect of" for a keyword that
      contains "cause" anywhere, the keyword itself otherwise; so no word of
      it contains "cause". */
  function AltWord(kw: string): (w: string)
    ensures !Contains(w, "cause")
    ensures Contains(kw, "cause") ==> w == "effect of"
    ensures !Contains(kw, "cause") ==> w == kw
  {
    if Contains(kw, "cause") then
      EffectOfLacksCause();
      "effect of"
    else kw
  }

  lemma EffectOfLacksCause()
    ensures !Contains("effect of", "cause")
  {
    var s := "effect of";
    forall k: nat | k + 5 <= |s|
      ensures !OccursAt(s, "cause", k)
    {
      assert s[k..k + 5][0] == s[k] && s[k..k + 5][1] == s[k + 1];
    }
  }

  function AltWords(keywords: seq<string>): (ws: seq<string>)
    ensures |ws| == |keywords|
    ensures forall i :: 0 <= i < |ws| ==> ws[i] == AltWord(keywords[i])
  {
    seq(|keywords|, i requires 0 <= i < |keywords| => AltWord(keywords[i]))
  }

  /** The three candidate queries, built by appending as the service does:
      the basic query first, the quoted two-keyword query only when there
      are at least two keywords, and the alternative query last. Only the
      first one is ever sent. */
  method BuildQueries(keywords: seq<string>) returns (queries: seq<string>)
    ensures |queries| == (if |keywords| >= 2 then 3 else 2)
    ensures queries[0] == SearchQuery(keywords)
    ensures |keywords| >= 2 ==> queries[1] == "\"" + keywords[0] + " " + keywords[1] + "\" scientific study"
    ensures queries[|queries| - 1] == Join(AltWords(keywords), " ") + " meta-analysis"
  {
    queries := [];
    queries := queries + [Join(keywords, " ") + QuerySuffix];
    if |keywords| >= 2 {
      queries := queries + ["\"" + keywords[0] + " " + keywords[1] + "\" scientific study"];
    }
    var altQuery := Join(AltWords(keywords), " ") + " meta-analysis";
    queries := queries + [altQuery];
  }

  // ---------------------------------------------------------------------
  // Raw results

  /** One author entry of a result's publication info: a JSON object given
      as its (key, str(value)) pairs in order, or any other value given as
      its str() rendering. */
  datatype AuthorEntry = AuthorDict(entries: seq<(string, string)>) | AuthorScalar(repr: string)

  /** The publication info's "authors" value: a list, a string, or any other
      value given as its str() rendering. */
  datatype AuthorsField = AuthorList(items: seq<AuthorEntry>) | AuthorText(text: string) | AuthorOther(repr: string)

  /** The keys of "publication_info" the service reads; None for a missing
      key. */
  datatype PubInfo = PubInfo(authors: Option<AuthorsField>, year: Option<string>, summary: Option<string>)

  /** One organic result; None for a missing key. `citedByValue` is the
      "value" of the "cited_by" object, None when either is missing. */
  datatype RawResult = RawResult(
    title: Option<string>,
    snippet: Option<string>,
    link: Option<string>,
    citedByValue: Option<int>,
    pubInfo: Option<PubInfo>)

  /** The search API's answer: a transport failure with its message, or an
      HTTP status with the decoded body's "organic_results" list, None when
      the body lacks that key. */
  datatype SearchResponse = TransportFailure(reason: string) | SearchStatus(code: int, body: string, organic: Option<seq<RawResult>>)

  /** A paper as the service returns it. */
  datatype Found = Found(
    title: string,
    snippet: string,
    url: string,
    authors: seq<string>,
    year: string,
    publication: string,
    citationCount: int)

  // ---------------------------------------------------------------------
  // Authors

  /** The value under `key` in an object's entries, if the key is present. */
  function Lookup(entries: seq<(string, string)>, key: string): (v: Option<string>)
    ensures v.Some? <==> exists i :: 0 <= i < |entries| && entries[i].0 == key
    ensures v.Some? ==> exists i :: 0 <= i < |entries| && entries[i] == (key, v.value)
  {
    if entries == [] then None
    else if entries[0].0 == key then Some(entries[0].1)
    else
      var v := Lookup(entries[1..], key);
      assert forall i :: 1 <= i < |entries| ==> entries[i] == entries[1..][i - 1];
      v
  }

  /** The string an author entry becomes: the "name" of an object that has
      one, the first value of any other non-empty object, "Unknown" for an
      empty object, and str() of anything else. */
  function AuthorName(a: AuthorEntry): string
  {
    match a
    case AuthorScalar(r) => r
    case AuthorDict(es) =>
      match Lookup(es, "name")
      case Some(n) => n
      case None => if es == [] then "Unknown" else es[0].1
  }

  /** The authors list a paper ends up with, as a value. */
  function AuthorsOf(field: AuthorsField): seq<string>
  {
    match field
    case AuthorList(items) => seq(|items|, i requires 0 <= i < |items| => AuthorName(items[i]))
    case AuthorText(s) => [s]
    case AuthorOther(r) => [r]
  }

  /** The author coercion: a list keeps its length and order with every
      entry coerced; a string becomes a one-element list; any other value
      becomes the one-element list of its rendering. */
  lemma AuthorsOfShape(field: AuthorsField)
    ensures field.AuthorList? ==> |AuthorsOf(field)| == |field.items|
    ensures field.AuthorList? ==> forall i :: 0 <= i < |field.items| ==> AuthorsOf(field)[i] == AuthorName(field.items[i])
    ensures field.AuthorText? ==> AuthorsOf(field) == [field.text]
    ensures field.AuthorOther? ==> AuthorsOf(field) == [field.repr]
  {
  }

  /** The three object cases of the coercion. */
  lemma AuthorNameCases(es: seq<(string, string)>, name: string)
    ensures ((exists i :: 0 <= i < |es| && es[i] == ("name", name))
             && (forall i :: 0 <= i < |es| && es[i].0 == "name" ==> es[i].1 == name))
            ==> AuthorName(AuthorDict(es)) == name
    ensures (forall i :: 0 <= i < |es| ==> es[i].0 != "name") && es != [] ==> AuthorName(AuthorDict(es)) == es[0].1
    ensures AuthorName(AuthorDict([])) == "Unknown"
  {
    if (exists i :: 0 <= i < |es| && es[i] == ("name", name))
       && (forall i :: 0 <= i < |es| && es[i].0 == "name" ==> es[i].1 == name) {
      var v := Lookup(es, "name");
      var j :| 0 <= j < |es| && es[j] == ("name", v.value);
    }
  }

  /** The author loop of the service, appending one string per entry. */
  method NormaliseAuthors(field: AuthorsField) returns (authors: seq<string>)
    ensures authors == AuthorsOf(field)
  {
    match field {
      case AuthorList(items) =>
        var authorList: seq<string> := [];
        for i := 0 to |items|
          invariant authorList == seq(i, k requires 0 <= k < i => AuthorName(items[k]))
        {
          var author := items[i];
          match author {
            case AuthorDict(es) =>
              var name := Lookup(es, "name");
              if name.Some? {
                authorList := authorList + [name.value];
              } else {
                authorList := authorList + [if es != [] then es[0].1 else "Unknown"];
              }
            case AuthorScalar(r) =>
              authorList := authorList + [r];
          }
        }
        authors := authorList;
      case AuthorText(s) =>
        authors := [s];
      case AuthorOther(r) =>
        authors := [r];
    }
  }

  // ---------------------------------------------------------------------
  // Paper pages

  /** A paper page's answer: a failure of any kind, or a status and text. */
  datatype PageOutcome = PageFailure | PageStatus(code: int, text: string)

  const AbstractMarkers: seq<string> := ["abstract", "summary", "overview"]

  /** The candidate for one marker: up to 500 characters of the page from
      the marker's first occurrence in the lower-cased text, accepted only
      when longer than 100 characters. */
  function Candidate(text: string, marker: string): (c: Option<string>)
    ensures c.Some? <==> IndexOf(Lower(text), marker, 0).Some? && |text| - IndexOf(Lower(text), marker, 0).value > 100
    ensures c.Some? ==> var start := IndexOf(Lower(text), marker, 0).value;
                        100 < |c.value| <= 500 && start + |c.value| <= |text|
                        && |c.value| == (if start + 500 <= |text| then 500 else |text| - start)
                        && c.value == text[start..start + |c.value|]
                        && OccursAt(Lower(text), marker, start)
  {
    match IndexOf(Lower(text), marker, 0)
    case None => None
    case Some(start) =>
      var stop := if start + 500 <= |text| then start + 500 else |text|;
      var potential := text[start..stop];
      if |potential| > 100 then Some(potential) else None
  }

  /** The first marker, in order, whose candidate is accepted. */
  function AbstractFrom(text: string, markers: seq<string>): (a: Option<string>)
    ensures a.Some? ==> exists k :: 0 <= k < |markers| && Candidate(text, markers[k]) == a
                                    && forall j :: 0 <= j < k ==> Candidate(text, markers[j]).None?
    ensures a.None? ==> forall k :: 0 <= k < |markers| ==> Candidate(text, markers[k]).None?
  {
    if markers == [] then None
    else if Candidate(text, markers[0]).Some? then Candidate(text, markers[0])
    else
      var a := AbstractFrom(text, markers[1..]);
      assert forall k :: 1 <= k < |markers| ==> markers[k] == markers[1..][k - 1];
      a
  }

  /** fetch_paper_details as a value: the abstract when the page answered
      200 and a marker gave an accepted candidate, and nothing (the empty
      details) on any other status, on a failure, or when no marker
      qualifies. */
  function PaperDetails(page: PageOutcome): (a: Option<string>)
    ensures a.Some? ==> page.PageStatus? && page.code == 200 && 100 < |a.value| <= 500
    ensures page.PageStatus? && page.code == 200 ==> a == AbstractFrom(page.text, AbstractMarkers)
  {
    match page
    case PageFailure => None
    case PageStatus(code, text) => if code == 200 then AbstractFrom(text, AbstractMarkers) else None
  }

  /** fetch_paper_details: a failure or a status other than 200 gives no
      details; otherwise the marker loop decides. */
  method FetchPaperDetails(page: PageOutcome) returns (details: Option<string>)
    ensures details == PaperDetails(page)
  {
    if page.PageFailure? || page.code != 200 {
      return None;
    }
    details := FindAbstract(page.text, AbstractMarkers);
  }

  /** The marker loop of fetch_paper_details, with its early exit. */
  method FindAbstract(text: string, markers: seq<string>) returns (details: Option<string>)
    ensures details == AbstractFrom(text, markers)
  {
    var lowered := Lower(text);
    var found := "";
    var i := 0;
    while i < |markers|
      invariant 0 <= i <= |markers|
      invariant found == ""
      invariant AbstractFrom(text, markers) == AbstractFrom(text, markers[i..])
      decreases |markers| - i
    {
      var marker := markers[i];
      assert markers[i..][1..] == markers[i + 1..];
      if Contains(lowered, marker) {
        var startIdx := IndexOf(lowered, marker, 0).value;
        var stop := if startIdx + 500 <= |text| then startIdx + 500 else |text|;
        var potentialAbstract := text[startIdx..stop];
        assert potentialAbstract == Candidate(text, marker).GetOr(potentialAbstract);
        if |potentialAbstract| > 100 {
          found := potentialAbstract;
          assert Candidate(text, marker) == Some(found);
          assert AbstractFrom(text, markers) == Some(found);
          break;
        }
      }
      assert Candidate(text, marker).None?;
      i := i + 1;
    }
    details := if found != "" then Some(found) else None;
  }

  // ---------------------------------------------------------------------
  // Normalisation

  /** A result's paper before the snippet is revisited: each field from the
      result or its default, and the publication info's fields when it is
      present. */
  function BasePaper(raw: RawResult): Found
  {
    var authorsYearPub :=
      match raw.pubInfo
      case None => ([], "", "")
      case Some(info) =>
        (match info.authors case Some(f) => AuthorsOf(f) case None => [],
         info.year.GetOr(""), info.summary.GetOr(""));
    Found(raw.title.GetOr(""), raw.snippet.GetOr(""), raw.link.GetOr(""),
          authorsYearPub.0, authorsYearPub.1, authorsYearPub.2, raw.citedByValue.GetOr(0))
  }

  /** The snippet rule: a snippet shorter than 100 characters of a paper
      with a non-empty url is replaced by the page's abstract, when there
      is one. */
  function WithAbstract(p: Found, pages: string -> PageOutcome): (q: Found)
    ensures q == p || q == p.(snippet := q.snippet)
    ensures q.snippet != p.snippet ==> |p.snippet| < 100 && p.url != "" && PaperDetails(pages(p.url)) == Some(q.snippet)
    ensures |p.snippet| < 100 && p.url != "" && PaperDetails(pages(p.url)).Some? ==> q.snippet == PaperDetails(pages(p.url)).value
  {
    if |p.snippet| < 100 && p.url != "" then
      match PaperDetails(pages(p.url))
      case Some(a) => p.(snippet := a)
      case None => p
    else p
  }

  function Normalise(raw: RawResult, pages: string -> PageOutcome): Found
  {
    WithAbstract(BasePaper(raw), pages)
  }

  /** Python's `xs[:limit]`: the first `limit` elements, or all but the
      last -limit for a negative limit. */
  function PrefixUpTo<T>(xs: seq<T>, limit: int): (r: seq<T>)
    ensures limit >= 0 ==> |r| == if limit <= |xs| then limit else |xs|
    ensures limit < 0 ==> |r| == if |xs| + limit >= 0 then |xs| + limit else 0
    ensures |r| <= |xs| && r == xs[..|r|]
  {
    if limit >= 0 then (if limit <= |xs| then xs[..limit] else xs)
    else if |xs| + limit >= 0 then xs[..|xs| + limit] else []
  }

  /** The papers of a successful search, as a value. */
  function FoundPapers(organic: Option<seq<RawResult>>, limit: int, pages: string -> PageOutcome): seq<Found>
  {
    match organic
    case None => []
    case Some(results) =>
      var rs := PrefixUpTo(results, limit);
      seq(|rs|, i requires 0 <= i < |rs| => Normalise(rs[i], pages))
  }

  /** At most `limit` papers come back, one per leading result and in the
      results' order. */
  lemma FoundPapersOrder(organic: Option<seq<RawResult>>, limit: int, pages: string -> PageOutcome)
    ensures limit >= 0 ==> |FoundPapers(organic, limit, pages)| <= limit
    ensures organic.None? ==> FoundPapers(organic, limit, pages) == []
    ensures organic.Some? && 0 <= limit ==>
              |FoundPapers(organic, limit, pages)| == (if limit <= |organic.value| then limit else |organic.value|)
    ensures organic.Some? ==> forall i :: 0 <= i < |FoundPapers(organic, limit, pages)| ==>
              i < |organic.value| && FoundPapers(organic, limit, pages)[i] == Normalise(organic.value[i], pages)
  {
    if organic.Some? {
      var rs := PrefixUpTo(organic.value, limit);
      var fp := FoundPapers(organic, limit, pages);
      assert forall i :: 0 <= i < |rs| ==> rs[i] == organic.value[i];
      assert forall i :: 0 <= i < |fp| ==> fp[i] == Normalise(rs[i], pages);
    }
  }

  /** The field defaults: a result with no keys at all becomes a paper with
      empty strings, no authors and no citations; without publication info
      the authors, year and publication keep their defaults. */
  lemma NormaliseDefaults(raw: RawResult, pages: string -> PageOutcome)
    ensures raw == RawResult(None, None, None, None, None) ==> Normalise(raw, pages) == Found("", "", "", [], "", "", 0)
    ensures raw.pubInfo.None? ==> Normalise(raw, pages).authors == [] && Normalise(raw, pages).year == ""
                                  && Normalise(raw, pages).publication == ""
    ensures Normalise(raw, pages).title == raw.title.GetOr("") && Normalise(raw, pages).url == raw.link.GetOr("")
    ensures Normalise(raw, pages).citationCount == raw.citedByValue.GetOr(0)
    ensures raw.pubInfo.Some? && raw.pubInfo.value.authors.Some? ==>
              Normalise(raw, pages).authors == AuthorsOf(raw.pubInfo.value.authors.value)
  {
  }

  /** The snippet is replaced exactly when it is shorter than 100
      characters, the url is non-empty and the page yields an abstract,
      which is then longer than 100 characters. */
  lemma SnippetReplacement(raw: RawResult, pages: string -> PageOutcome)
    ensures var base := BasePaper(raw);
            Normalise(raw, pages).snippet != base.snippet ==>
              |base.snippet| < 100 && base.url != "" && PaperDetails(pages(base.url)) == Some(Normalise(raw, pages).snippet)
    ensures var base := BasePaper(raw);
            |base.snippet| < 100 && base.url != "" && PaperDetails(pages(base.url)).Some? ==>
              Normalise(raw, pages).snippet != base.snippet && |Normalise(raw, pages).snippet| > 100
  {
  }

  // ---------------------------------------------------------------------
  // The search

  /** search_papers' outcome, as a value: a transport failure and any
      status other than 200 both end in a search error carrying a message;
      a 200 answer gives the normalised papers. The answer is a function of
      the first query and the limit only. */
  function SearchOutcome(keywords: seq<string>, limit: int,
                         serp: (string, int) -> SearchResponse, pages: string -> PageOutcome)
    : (r: Result<seq<Found>, string>)
    ensures var resp := serp(SearchQuery(keywords), limit);
            resp.TransportFailure? ==> r == Err("Request to SERP API failed: " + resp.reason)
    ensures var resp := serp(SearchQuery(keywords), limit);
            resp.SearchStatus? && resp.code != 200 ==>
              r == Err("SERP API request failed with status code " + IntToString(resp.code) + ": " + resp.body)
    ensures var resp := serp(SearchQuery(keywords), limit);
            resp.SearchStatus? && resp.code == 200 ==> r == Ok(FoundPapers(resp.organic, limit, pages))
  {
    match serp(SearchQuery(keywords), limit)
    case TransportFailure(reason) => Err("Request to SERP API failed: " + reason)
    case SearchStatus(code, body, organic) =>
      if code != 200 then Err("SERP API request failed with status code " + IntToString(code) + ": " + body)
      else Ok(FoundPapers(organic, limit, pages))
  }

  /** search_papers, building the queries, sending the first and walking
      the results. */
  method SearchPapers(keywords: seq<string>, limit: int,
                      serp: (string, int) -> SearchResponse, pages: string -> PageOutcome)
    returns (r: Result<seq<Found>, string>)
    ensures r == SearchOutcome(keywords, limit, serp, pages)
  {
    var queries := BuildQueries(keywords);
    var query := queries[0];
    var response := serp(query, limit);
    if response.TransportFailure? {
      return Err("Request to SERP API failed: " + response.reason);
    }
    if response.code != 200 {
      return Err("SERP API request failed with status code " + IntToString(response.code) + ": " + response.body);
    }
    var papers: seq<Found> := [];
    if response.organic.Some? {
      var results := PrefixUpTo(response.organic.value, limit);
      papers := NormaliseResults(results, pages);
      assert papers == FoundPapers(response.organic, limit, pages);
    }
    r := Ok(papers);
  }

  /** The loop over the kept results: each paper is appended, then its
      snippet revisited through the list. */
  method NormaliseResults(results: seq<RawResult>, pages: string -> PageOutcome) returns (papers: seq<Found>)
    ensures |papers| == |results|
    ensures forall k :: 0 <= k < |results| ==> papers[k] == Normalise(results[k], pages)
  {
    papers := [];
    for i := 0 to |results|
      invariant |papers| == i
      invariant forall k :: 0 <= k < i ==> papers[k] == Normalise(results[k], pages)
    {
      var paper := BuildPaper(results[i]);
      papers := papers + [paper];
      if |paper.snippet| < 100 && paper.url != "" {
        var details := FetchPaperDetails(pages(paper.url));
        if details.Some? {
          papers := papers[|papers| - 1 := paper.(snippet := details.value)];
        }
      }
      assert papers[i] == WithAbstract(paper, pages);
    }
  }

  /** The record the loop body builds for one result before its snippet is
      revisited. */
  method BuildPaper(raw: RawResult) returns (paper: Found)
    ensures paper == BasePaper(raw)
  {
    paper := Found(raw.title.GetOr(""), raw.snippet.GetOr(""), raw.link.GetOr(""), [], "", "",
                   raw.citedByValue.GetOr(0));
    if raw.pubInfo.Some? {
      var pubInfo := raw.pubInfo.value;
      var authors: seq<string> := [];
      if pubInfo.authors.Some? {
        authors := NormaliseAuthors(pubInfo.authors.value);
      }
      paper := paper.(authors := authors, year := pubInfo.year.GetOr(""), publication := pubInfo.summary.GetOr(""));
    }
  }
}
