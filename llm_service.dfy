/** Handling of the language model's text replies: cleaning a reply down to
    the JSON object it should hold, parsing it with a fall-back, and the
    fall-back's hand-written extraction of an assessment, an explanation and
    the per-paper analyses. The HTTP call to the model is not modelled; its
    reply enters as a string. The regular expressions of the source are
    written out as explicit scans. */
module LlmService {

  import opened Common
  import opened Text

  /** One `{"paper_number": .., "relation_to_claim": ..}` entry of a reply,
      each key possibly absent. */
  datatype AnalysisEntry = AnalysisEntry(paperNumber: Option<int>, relationToClaim: Option<string>)

  /** A reply parsed as a JSON object, reduced to the keys the pipeline reads;
      a key the object lacks is None. */
  datatype Reply = Reply(
    assessment: Option<string>,
    explanation: Option<string>,
    paperAnalyses: Option<seq<AnalysisEntry>>,
    relevance: Option<string>,
    keyFindings: Option<string>,
    position: Option<string>)

  /** The outcome of one call to the model: the LLMRequestError it raises,
      with its message, or the reply's text. */
  datatype LlmOutcome = LlmError(message: string) | LlmText(content: string)

  /** What json.loads makes of a string: a decode error, an object, or some
      other JSON value (an array, a string, a number, null). */
  datatype Decoded = NotJson | JsonObject(reply: Reply) | JsonOther

  // ---------------------------------------------------------------------
  // Cleaning

  const Fence: string := "```"

  /** Where the first fenced block's content lies: `open` is the first fence,
      `hi` the first fence at or after open + 3, and `lo` skips an optional
      "json" tag right after the opening fence. */
  datatype Span = Span(open: nat, lo: nat, hi: nat)

  /** The pattern ```(?:json)?(.*?)``` searched with DOTALL: the group spans
      from after the first fence (and its tag) to the next fence; when no
      second fence follows the first, there is no match at all. */
  function CodeBlockSpan(text: string): (r: Option<Span>)
    ensures r.Some? ==> OccursAt(text, Fence, r.value.open)
                        && (forall j :: 0 <= j < r.value.open ==> !OccursAt(text, Fence, j))
    ensures r.Some? ==> OccursAt(text, Fence, r.value.hi) && r.value.open + 3 <= r.value.lo <= r.value.hi
                        && (forall j :: r.value.open + 3 <= j < r.value.hi ==> !OccursAt(text, Fence, j))
    ensures r.Some? ==> (r.value.lo == r.value.open + 7 <==> OccursAt(text, "json", r.value.open + 3))
                        && (r.value.lo == r.value.open + 3 || r.value.lo == r.value.open + 7)
    ensures r.None? ==> forall i, j :: OccursAt(text, Fence, i) && OccursAt(text, Fence, j) ==> j < i + 3
  {
    match IndexOf(text, Fence, 0)
    case None => None
    case Some(open) =>
      match IndexOf(text, Fence, open + 3)
      case None =>
        assert forall i, j :: OccursAt(text, Fence, i) && OccursAt(text, Fence, j) ==> j < i + 3 by {
          forall i, j | OccursAt(text, Fence, i) && OccursAt(text, Fence, j) ensures j < i + 3 {
            assert open <= i;
          }
        }
        None
      case Some(hi) =>
        if OccursAt(text, "json", open + 3) then
          JsonTagHoldsNoFence(text, open + 3, hi);
          Some(Span(open, open + 7, hi))
        else
          Some(Span(open, open + 3, hi))
  }

  /** A fence cannot start inside a "json" tag, since none of its letters
      is a backtick. */
  lemma JsonTagHoldsNoFence(text: string, tag: nat, hi: nat)
    requires OccursAt(text, "json", tag) && OccursAt(text, Fence, hi) && tag <= hi
    ensures tag + 4 <= hi
  {
    assert text[hi] == text[hi..hi + 3][0] == '`';
    assert forall j :: tag <= j < tag + 4 ==> text[j] == text[tag..tag + 4][j - tag];
  }

  /** The text the brace search works on: the stripped content of the first
      fenced block, or else the whole stripped reply. */
  function WorkingText(text: string): (w: string)
    ensures CodeBlockSpan(text).Some? ==>
              var sp := CodeBlockSpan(text).value; w == PyStrip(text[sp.lo..sp.hi])
    ensures CodeBlockSpan(text).None? ==> w == PyStrip(text)
  {
    match CodeBlockSpan(text)
    case Some(sp) => PyStrip(text[sp.lo..sp.hi])
    case None => PyStrip(text)
  }

  /** The pattern \{.+\} searched with DOTALL: from the first '{' to the last
      '}', provided that '}' lies at least two positions after the '{'. Such
      a span exists exactly when some '{' has a '}' two or more places after
      it, since the first '{' then has one as well. */
  function BraceSpan(w: string): (r: Option<string>)
    ensures r.Some? <==> exists i, k :: 0 <= i && i + 2 <= k < |w| && w[i] == '{' && w[k] == '}'
    ensures r.Some? ==> IndexOf(w, "{", 0).Some? && LastIndexOfChar(w, '}').Some?
                        && var i := IndexOf(w, "{", 0).value;
                           var k := LastIndexOfChar(w, '}').value;
                           i + 2 <= k && r.value == w[i..k + 1]
    ensures r.Some? ==> |r.value| >= 3 && r.value[0] == '{' && r.value[|r.value| - 1] == '}'
  {
    match (IndexOf(w, "{", 0), LastIndexOfChar(w, '}'))
    case (Some(i), Some(k)) =>
      assert w[i] == w[i..i + 1][0] == '{';
      assert forall j :: 0 <= j < i ==> w[j] != '{' by {
        forall j | 0 <= j < i ensures w[j] != '{' {
          assert !OccursAt(w, "{", j);
          assert w[j..j + 1] == [w[j]];
        }
      }
      if k >= i + 2 then
        Some(w[i..k + 1])
      else None
    case (None, _) =>
      assert forall j :: 0 <= j < |w| ==> w[j] != '{' by {
        forall j | 0 <= j < |w| ensures w[j] != '{' {
          assert !OccursAt(w, "{", j);
          assert w[j..j + 1] == [w[j]];
        }
      }
      None
    case (_, None) => None
  }

  /** The brace search and final strip applied to the working text. */
  function NarrowToBraces(w: string): (r: string)
    ensures r != [] ==> !IsPySpace(r[0]) && !IsPySpace(r[|r| - 1])
    ensures BraceSpan(w).Some? ==> r == BraceSpan(w).value
    ensures BraceSpan(w).Some? ==> |r| >= 3 && r[0] == '{' && r[|r| - 1] == '}'
    ensures BraceSpan(w).None? ==> r == PyStrip(w)
  {
    match BraceSpan(w)
    case Some(b) =>
      // the final strip leaves a brace span as it is
      TrimUnpadded(b, PyBlank);
      assert PyStrip(b) == b;
      b
    case None => PyStrip(w)
  }

  /** clean_json_text: the working text (the first fenced block's stripped
      content, or else the stripped reply) narrowed to its brace span when
      it has one, then stripped. */
  function CleanJsonText(text: string): (r: string)
    ensures r == NarrowToBraces(WorkingText(text))
    ensures r != [] ==> !IsPySpace(r[0]) && !IsPySpace(r[|r| - 1])
    ensures BraceSpan(WorkingText(text)).Some? ==> |r| >= 3 && r[0] == '{' && r[|r| - 1] == '}'
    ensures CodeBlockSpan(text).None? && BraceSpan(PyStrip(text)).None? ==> r == PyStrip(text)
  {
    var w := WorkingText(text);
    if CodeBlockSpan(text).None? then
      TrimIdempotent(text, PyBlank);
      NarrowToBraces(w)
    else
      NarrowToBraces(w)
  }

  /** A reply with a fenced block is cleaned from that block alone: the
      block's stripped content, narrowed to its brace span when it has
      one. Whatever lies outside the first block is ignored. */
  lemma CleanFencedText(text: string)
    requires CodeBlockSpan(text).Some?
    ensures var sp := CodeBlockSpan(text).value;
            var block := PyStrip(text[sp.lo..sp.hi]);
            (BraceSpan(block).None? ==> CleanJsonText(text) == block)
            && (BraceSpan(block).Some? ==> CleanJsonText(text) == BraceSpan(block).value)
  {
    var sp := CodeBlockSpan(text).value;
    TrimIdempotent(text[sp.lo..sp.hi], PyBlank);
  }

  /** Without fences and without a usable brace pair, cleaning only strips. */
  lemma CleanPlainText(text: string)
    requires forall j :: 0 <= j ==> !OccursAt(text, Fence, j)
    requires '{' !in text
    ensures CleanJsonText(text) == PyStrip(text)
  {
    assert CodeBlockSpan(text).None?;
    assert BraceSpan(PyStrip(text)).None?;
  }

  // ---------------------------------------------------------------------
  // Parsing

  /** parse_json_response: decode the cleaned reply; a decode error never
      escapes, the raw (uncleaned) reply goes to the fall-back extraction
      instead. */
  function ParseJsonResponse(content: string, decode: string -> Decoded): (r: Decoded)
    ensures !r.NotJson?
    ensures decode(CleanJsonText(content)).NotJson? ==> r == JsonObject(FallbackReply(content))
    ensures !decode(CleanJsonText(content)).NotJson? ==> r == decode(CleanJsonText(content))
  {
    match decode(CleanJsonText(content))
    case NotJson => JsonObject(FallbackReply(content))
    case other => other
  }

  // ---------------------------------------------------------------------
  // Fall-back extraction

  const DefaultExplanation: string := "Analysis shows insufficient evidence for a definitive assessment."

  /** The assessment keyword test: "Supported" wins over "Refuted", and
      either is looked for case-sensitively anywhere in the reply. */
  function FallbackAssessment(content: string): (a: string)
    ensures Contains(content, "Supported") ==> a == "Supported"
    ensures !Contains(content, "Supported") && Contains(content, "Refuted") ==> a == "Refuted"
    ensures !Contains(content, "Supported") && !Contains(content, "Refuted") ==> a == "Lacks Sufficient Evidence"
  {
    if Contains(content, "Supported") then "Supported"
    else if Contains(content, "Refuted") then "Refuted"
    else "Lacks Sufficient Evidence"
  }

  /** `"([^"]+)"` at position q: an opening quote, at least one non-quote
      character, and a closing quote. Gives the captured text and the index
      after the closing quote. */
  function QuotedAt(t: string, q: nat): (r: Option<(string, nat)>)
    ensures r.Some? ==> q < |t| && t[q] == '"' && |r.value.0| >= 1
                        && r.value.1 == q + |r.value.0| + 2 <= |t|
                        && r.value.0 == t[q + 1..q + 1 + |r.value.0|]
                        && t[r.value.1 - 1] == '"'
                        && forall i :: 0 <= i < |r.value.0| ==> r.value.0[i] != '"'
  {
    if q < |t| && t[q] == '"' then
      var e := SkipWhile(t, q + 1, AllBut('"'));
      if e > q + 1 && e < |t| then Some((t[q + 1..e], e + 1)) else None
    else None
  }

  const ExplanationKey: string := "\"explanation\""

  /** The explanation pattern `"explanation"\s*:\s*"([^"]+)"` anchored at p. */
  function ExplanationAt(t: string, p: nat): (r: Option<string>)
    ensures r.Some? ==> OccursAt(t, ExplanationKey, p) && r.value != []
                        && forall i :: 0 <= i < |r.value| ==> r.value[i] != '"'
  {
    if !OccursAt(t, ExplanationKey, p) then None
    else
      var c := SkipWhile(t, p + |ExplanationKey|, PyBlank);
      if c < |t| && t[c] == ':' then
        match QuotedAt(t, SkipWhile(t, c + 1, PyBlank))
        case Some((e, _)) => Some(e)
        case None => None
      else None
  }

  /** re.search for the explanation pattern from position `from`: the
      leftmost position where it matches. */
  function ExplanationSearch(t: string, from: nat): (p: Option<nat>)
    ensures p.Some? ==> from <= p.value && ExplanationAt(t, p.value).Some?
    ensures p.Some? ==> forall q :: from <= q < p.value ==> ExplanationAt(t, q).None?
    ensures p.None? ==> forall q :: from <= q ==> ExplanationAt(t, q).None?
    decreases |t| - from
  {
    if from >= |t| then
      assert forall q :: from <= q ==> !OccursAt(t, ExplanationKey, q);
      None
    else if ExplanationAt(t, from).Some? then Some(from)
    else ExplanationSearch(t, from + 1)
  }

  /** The group re.search captures: the explanation at the leftmost
      match, and None exactly when the pattern matches nowhere. */
  function FirstExplanation(t: string, from: nat): (r: Option<string>)
    ensures r.None? <==> forall p :: from <= p ==> ExplanationAt(t, p).None?
    ensures r.Some? ==> ExplanationSearch(t, from).Some? && r == ExplanationAt(t, ExplanationSearch(t, from).value)
  {
    match ExplanationSearch(t, from)
    case Some(p) => ExplanationAt(t, p)
    case None => None
  }

  const PaperNumberKey: string := "\"paper_number\":"
  const RelationKey: string := "\"relation_to_claim\":"

  /** One match of the analysis pattern
      `"paper_number":\s*(\d+).*?"relation_to_claim":\s*"([^"]+)"`. */
  datatype Match = Match(start: nat, end: nat, paperNumber: nat, relation: string)

  /** The tail `"relation_to_claim":\s*"([^"]+)"` anchored at r: the
      captured relation and the index after the closing quote. */
  function RelationAt(t: string, r: nat): (m: Option<(string, nat)>)
    ensures m.Some? ==> OccursAt(t, RelationKey, r) && r < m.value.1 <= |t| && m.value.0 != []
  {
    if !OccursAt(t, RelationKey, r) then None
    else QuotedAt(t, SkipWhile(t, r + |RelationKey|, PyBlank))
  }

  /** The lazy `.*?`: the first position at or after `from` where the tail
      matches. */
  function FirstRelation(t: string, from: nat): (m: Option<(nat, string, nat)>)
    ensures m.Some? ==> from <= m.value.0 && RelationAt(t, m.value.0) == Some((m.value.1, m.value.2))
    ensures m.Some? ==> forall r :: from <= r < m.value.0 ==> RelationAt(t, r).None?
    ensures m.None? ==> forall r :: from <= r ==> RelationAt(t, r).None?
    decreases |t| - from
  {
    if from >= |t| then
      assert forall r :: from <= r ==> !OccursAt(t, RelationKey, r);
      None
    else
      match RelationAt(t, from)
      case Some((rel, e)) => Some((from, rel, e))
      case None => FirstRelation(t, from + 1)
  }

  /** The whole analysis pattern anchored at p: the key, blanks, a maximal
      run of digits, then the first relation tail after the digits. */
  function MatchAt(t: string, p: nat): (m: Option<Match>)
    ensures m.Some? ==> m.value.start == p && p < m.value.end <= |t|
    ensures m.Some? ==> OccursAt(t, PaperNumberKey, p) && m.value.relation != []
  {
    if !OccursAt(t, PaperNumberKey, p) then None
    else
      var d := SkipWhile(t, p + |PaperNumberKey|, PyBlank);
      var e := SkipWhile(t, d, Digit);
      if e == d then None
      else
        match FirstRelation(t, e)
        case Some((_, rel, stop)) => Some(Match(p, stop, DigitsValue(t[d..e]), rel))
        case None => None
  }

  /** re.search for the analysis pattern from `from`: a match at its start,
      the leftmost one (see NextMatchLeftmost). */
  function NextMatch(t: string, from: nat): (m: Option<Match>)
    ensures m.Some? ==> from <= m.value.start < m.value.end <= |t|
    decreases |t| - from
  {
    if from >= |t| then None
    else if MatchAt(t, from).Some? then MatchAt(t, from)
    else NextMatch(t, from + 1)
  }

  /** What re.search reports is a match at its start. */
  lemma {:induction false} NextMatchIsMatch(t: string, from: nat)
    requires NextMatch(t, from).Some?
    ensures MatchAt(t, NextMatch(t, from).value.start) == NextMatch(t, from)
    decreases |t| - from
  {
    if MatchAt(t, from).None? {
      NextMatchIsMatch(t, from + 1);
    }
  }

  /** No match starts between `from` and the one re.search reports, nor
      anywhere after `from` when it reports none. */
  lemma {:induction false} NextMatchLeftmost(t: string, from: nat, p: nat)
    requires from <= p
    requires NextMatch(t, from).None? || p < NextMatch(t, from).value.start
    ensures MatchAt(t, p).None?
    decreases |t| - from
  {
    if from < |t| && MatchAt(t, from).None? && from < p {
      NextMatchLeftmost(t, from + 1, p);
    }
  }

  /** re.finditer from `from`: the successive leftmost non-overlapping
      matches. They lie after `from`, in text order, without overlapping. */
  function Matches(t: string, from: nat): (ms: seq<Match>)
    ensures forall k :: 0 <= k < |ms| ==> from <= ms[k].start < ms[k].end
    ensures forall k :: 0 <= k < |ms| - 1 ==> ms[k].end <= ms[k + 1].start
    decreases |t| - from
  {
    match NextMatch(t, from)
    case None => []
    case Some(m) =>
      [m] + Matches(t, m.end)
  }

  /** Each reported element is a match of the pattern at its start. */
  lemma {:induction false} MatchesAreMatches(t: string, from: nat, k: nat)
    requires k < |Matches(t, from)|
    ensures MatchAt(t, Matches(t, from)[k].start) == Some(Matches(t, from)[k])
    decreases |t| - from
  {
    var m := NextMatch(t, from).value;
    var rest := Matches(t, m.end);
    assert Matches(t, from) == [m] + rest;
    if k == 0 {
      NextMatchIsMatch(t, from);
    } else {
      MatchesAreMatches(t, m.end, k - 1);
      assert Matches(t, from)[k] == rest[k - 1];
    }
  }

  /** Nothing is missed: every position where the pattern matches lies
      within one of the reported matches, at its start or inside it. */
  lemma {:induction false} MatchesCover(t: string, from: nat, p: nat)
    requires from <= p && MatchAt(t, p).Some?
    ensures exists k :: 0 <= k < |Matches(t, from)| && Matches(t, from)[k].start <= p < Matches(t, from)[k].end
    decreases |t| - from
  {
    if NextMatch(t, from).None? {
      NextMatchLeftmost(t, from, p);
    } else {
      var m := NextMatch(t, from).value;
      var rest := Matches(t, m.end);
      var ms := Matches(t, from);
      assert ms == [m] + rest;
      if p < m.start {
        NextMatchLeftmost(t, from, p);
      } else if p < m.end {
        assert ms[0].start <= p < ms[0].end;
      } else {
        MatchesCover(t, m.end, p);
        var k :| 0 <= k < |rest| && rest[k].start <= p < rest[k].end;
        assert ms[k + 1] == rest[k];
      }
    }
  }

  /** finditer yields nothing exactly when the pattern matches nowhere
      from `from` on. */
  lemma MatchesEmptyIff(t: string, from: nat)
    ensures Matches(t, from) == [] <==> forall p :: from <= p ==> MatchAt(t, p).None?
  {
    if Matches(t, from) == [] {
      forall p | from <= p ensures MatchAt(t, p).None? {
        if MatchAt(t, p).Some? {
          MatchesCover(t, from, p);
        }
      }
    } else {
      MatchesAreMatches(t, from, 0);
    }
  }

  function ToEntries(ms: seq<Match>): (es: seq<AnalysisEntry>)
    ensures |es| == |ms|
    ensures forall k :: 0 <= k < |ms| ==> es[k] == AnalysisEntry(Some(ms[k].paperNumber as int), Some(ms[k].relation))
  {
    if ms == [] then [] else [AnalysisEntry(Some(ms[0].paperNumber as int), Some(ms[0].relation))] + ToEntries(ms[1..])
  }

  /** _extract_fallback's result, as a value. */
  function FallbackReply(content: string): Reply
  {
    Reply(
      Some(FallbackAssessment(content)),
      Some(FirstExplanation(content, 0).GetOr(DefaultExplanation)),
      Some(ToEntries(Matches(content, 0))),
      None, None, None)
  }

  /** The fall-back result has exactly the keys assessment, explanation and
      paper_analyses, and its assessment is one of the three labels. */
  lemma FallbackReplyKeys(content: string)
    ensures var r := FallbackReply(content);
            r.assessment.Some? && r.explanation.Some? && r.paperAnalyses.Some?
            && r.relevance.None? && r.keyFindings.None? && r.position.None?
    ensures FallbackReply(content).assessment.value in {"Supported", "Refuted", "Lacks Sufficient Evidence"}
  {
  }

  /** The fall-back explanation is the fixed default when the pattern
      matches nowhere, and otherwise a non-empty quote-free capture (which
      may itself be the default's text; see FallbackExplanationIsFirst). */
  lemma FallbackExplanation(content: string)
    ensures (forall p :: 0 <= p ==> ExplanationAt(content, p).None?) ==>
              FallbackReply(content).explanation == Some(DefaultExplanation)
    ensures var e := FallbackReply(content).explanation.value;
            e == DefaultExplanation || (e != [] && '"' !in e)
  {
    var x := FirstExplanation(content, 0);
    if x.Some? {
      assert forall i :: 0 <= i < |x.value| ==> x.value[i] != '"';
    }
  }

  /** When the pattern matches, the explanation is the capture of its
      first match. */
  lemma FallbackExplanationIsFirst(content: string, p: nat)
    requires ExplanationAt(content, p).Some?
    requires forall q :: 0 <= q < p ==> ExplanationAt(content, q).None?
    ensures FallbackReply(content).explanation == ExplanationAt(content, p)
  {
    var p0 := ExplanationSearch(content, 0);
    assert p0.Some?;
    assert !(p < p0.value) && !(p0.value < p);
  }

  /** Every fall-back analysis has a non-negative paper number and a
      non-empty relation, one per pattern match. */
  lemma FallbackAnalyses(content: string)
    ensures |FallbackReply(content).paperAnalyses.value| == |Matches(content, 0)|
    ensures forall a :: a in FallbackReply(content).paperAnalyses.value ==>
              a.paperNumber.Some? && a.paperNumber.value >= 0 && a.relationToClaim.Some? && a.relationToClaim.value != []
  {
    var ms := Matches(content, 0);
    forall a | a in ToEntries(ms)
      ensures a.paperNumber.Some? && a.paperNumber.value >= 0 && a.relationToClaim.Some? && a.relationToClaim.value != []
    {
      var k :| 0 <= k < |ToEntries(ms)| && ToEntries(ms)[k] == a;
      MatchesAreMatches(content, 0, k);
    }
  }

  /** _extract_fallback as the source writes it: fill the three keys, then
      append one analysis per pattern match while scanning forward. */
  method ExtractFallback(content: string) returns (r: Reply)
    ensures r == FallbackReply(content)
  {
    var assessment: string;
    if Contains(content, "Supported") {
      assessment := "Supported";
    } else if Contains(content, "Refuted") {
      assessment := "Refuted";
    } else {
      assessment := "Lacks Sufficient Evidence";
    }
    var explanation := match FirstExplanation(content, 0)
      case Some(e) => e
      case None => DefaultExplanation;
    var analyses := CollectAnalyses(content);
    assert explanation == FirstExplanation(content, 0).GetOr(DefaultExplanation);
    r := Reply(Some(assessment), Some(explanation), Some(analyses), None, None, None);
  }

  /** The finditer loop of _extract_fallback: one analysis per match, in
      order. */
  method CollectAnalyses(content: string) returns (analyses: seq<AnalysisEntry>)
    ensures analyses == ToEntries(Matches(content, 0))
  {
    analyses := [];
    var pos: nat := 0;
    var next := NextMatch(content, pos);
    while next.Some?
      invariant next == NextMatch(content, pos)
      invariant analyses + ToEntries(Matches(content, pos)) == ToEntries(Matches(content, 0))
      decreases |content| - pos
    {
      var m := next.value;
      assert Matches(content, pos) == [m] + Matches(content, m.end);
      ToEntriesCons(m, Matches(content, m.end));
      analyses := analyses + [AnalysisEntry(Some(m.paperNumber as int), Some(m.relation))];
      pos := m.end;
      next := NextMatch(content, pos);
    }
    assert Matches(content, pos) == [];
  }

  lemma ToEntriesCons(m: Match, ms: seq<Match>)
    ensures ToEntries([m] + ms) == [AnalysisEntry(Some(m.paperNumber as int), Some(m.relation))] + ToEntries(ms)
  {
    assert ([m] + ms)[1..] == ms;
  }
}
