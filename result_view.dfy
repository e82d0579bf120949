/** The result card of the web client: the badge colour and icon of an
    assessment, the per-analysis paper panels with their placeholders, the
    source cards and the detailed report. */
module ResultView {

  import opened Common
  import opened Text
  import opened ClientTypes

  /** The four arms of the assessment switches. */
  datatype Category = Positive | Negative | Uncertain | Other

  /** The arm an assessment falls into, matched on its lower-case form. */
  function CategoryOf(assessment: string): Category
  {
    var l := Lower(assessment);
    if l == "true" || l == "mostly true" then Positive
    else if l == "false" || l == "mostly false" then Negative
    else if l == "lacks sufficient evidence" || l == "inconclusive" then Uncertain
    else Other
  }

  const GreenBadge: string := "bg-green-500/10 text-green-600 dark:text-green-400 border-green-500/20"
  const RedBadge: string := "bg-red-500/10 text-red-600 dark:text-red-400 border-red-500/20"
  const YellowBadge: string := "bg-yellow-500/10 text-yellow-600 dark:text-yellow-400 border-yellow-500/20"
  const BlueBadge: string := "bg-blue-500/10 text-blue-600 dark:text-blue-400 border-blue-500/20"

  const CheckIcon: string := "\U{2705}"
  const CrossIcon: string := "\U{274C}"
  const WarningIcon: string := "\U{26A0}\U{FE0F}"
  const InfoIcon: string := "\U{2139}\U{FE0F}"

  function BadgeOf(c: Category): string
  {
    match c
    case Positive => GreenBadge
    case Negative => RedBadge
    case Uncertain => YellowBadge
    case Other => BlueBadge
  }

  function IconOf(c: Category): string
  {
    match c
    case Positive => CheckIcon
    case Negative => CrossIcon
    case Uncertain => WarningIcon
    case Other => InfoIcon
  }

  /** getAssessmentColor: total, and the class of the assessment's arm. */
  function AssessmentColor(assessment: string): (cls: string)
    ensures cls == BadgeOf(CategoryOf(assessment))
  {
    match Lower(assessment)
    case "true" => GreenBadge
    case "mostly true" => GreenBadge
    case "false" => RedBadge
    case "mostly false" => RedBadge
    case "lacks sufficient evidence" => YellowBadge
    case "inconclusive" => YellowBadge
    case _ => BlueBadge
  }

  /** getAssessmentIcon: total, and the icon of the assessment's arm. */
  function AssessmentIcon(assessment: string): (icon: string)
    ensures icon == IconOf(CategoryOf(assessment))
  {
    match Lower(assessment)
    case "true" => CheckIcon
    case "mostly true" => CheckIcon
    case "false" => CrossIcon
    case "mostly false" => CrossIcon
    case "lacks sufficient evidence" => WarningIcon
    case "inconclusive" => WarningIcon
    case _ => InfoIcon
  }

  /** Distinct arms get distinct badge classes. */
  lemma BadgeOfInjective(c: Category, d: Category)
    ensures BadgeOf(c) == BadgeOf(d) <==> c == d
  {
    assert |GreenBadge| != |RedBadge| && |GreenBadge| != |YellowBadge| && |GreenBadge| != |BlueBadge|;
    assert |RedBadge| != |YellowBadge| && |YellowBadge| != |BlueBadge| && |RedBadge| != |BlueBadge|;
  }

  /** Distinct arms get distinct icons. */
  lemma IconOfInjective(c: Category, d: Category)
    ensures IconOf(c) == IconOf(d) <==> c == d
  {
    assert CheckIcon[0] != CrossIcon[0] && CheckIcon != WarningIcon && CheckIcon != InfoIcon;
    assert CrossIcon != WarningIcon && CrossIcon != InfoIcon && WarningIcon[0] != InfoIcon[0];
  }

  /** Colour and icon always agree: two assessments get the same colour
      exactly when they get the same icon, and exactly when they fall into
      the same arm. */
  lemma ColorAndIconAgree(a: string, b: string)
    ensures AssessmentColor(a) == AssessmentColor(b) <==> AssessmentIcon(a) == AssessmentIcon(b)
    ensures AssessmentColor(a) == AssessmentColor(b) <==> CategoryOf(a) == CategoryOf(b)
  {
    BadgeOfInjective(CategoryOf(a), CategoryOf(b));
    IconOfInjective(CategoryOf(a), CategoryOf(b));
  }

  /** The switches ignore case: an assessment and its lower-case form
      fall into the same arm. */
  lemma CategoryIgnoresCase(a: string)
    ensures CategoryOf(Lower(a)) == CategoryOf(a)
    ensures AssessmentColor(Lower(a)) == AssessmentColor(a)
  {
    LowerIdempotent(a);
  }

  /** The backend's own labels "Supported" and "Refuted" fall to the
      default arm: their lower-case forms have none of the arms' lengths. */
  lemma BackendLabelsFallThrough()
    ensures CategoryOf("Supported") == Other && CategoryOf("Refuted") == Other
  {
    assert |Lower("Supported")| == 9 && |Lower("Refuted")| == 7;
  }

  /** "Lacks Sufficient Evidence", the backend's third label, gets the
      yellow arm. */
  lemma InsufficientLabelIsUncertain()
    ensures CategoryOf("Lacks Sufficient Evidence") == Uncertain
  {
    var s := "Lacks Sufficient Evidence";
    assert Lower(s) == "lacks sufficient evidence" by {
      assert forall i :: 0 <= i < |s| ==> Lower(s)[i] == LowerChar(s[i]);
    }
  }

  // ---------------------------------------------------------------------
  // Paper panels

  /** `papers[n - 1]`: undefined out of range, including every n <= 0. */
  function PaperAt(papers: seq<Paper>, n: int): (p: Option<Paper>)
    ensures p.Some? <==> 1 <= n <= |papers|
    ensures p.Some? ==> p.value == papers[n - 1]
  {
    if 1 <= n <= |papers| then Some(papers[n - 1]) else None
  }

  /** What one analysis panel shows. */
  datatype Panel = Panel(
    number: int,
    title: string,
    authors: string,
    relevance: string,
    position: string,
    keyFindings: string,
    url: Option<string>)

  /** The text of a field that falls back with `||`: the fallback when the
      field is missing or empty. */
  function OrElse(v: Option<string>, fallback: string): (t: string)
    ensures v.None? || v.value == "" ==> t == fallback
    ensures v.Some? && v.value != "" ==> t == v.value
  {
    if v.Some? && v.value != "" then v.value else fallback
  }

  function AuthorsLine(p: Option<Paper>): string
  {
    var joined := if p.Some? && p.value.authors.Some? then Some(Join(p.value.authors.value, ", ")) else None;
    OrElse(joined, "Unknown")
  }

  /** The panel of one analysis: the paper is looked up by its 1-based
      number; a missing paper or an empty title shows "Paper n"; missing or
      empty authors, relevance and key findings show "Unknown", "Unknown"
      and "Not specified"; the position line is the analysis's own text. */
  function PanelFor(papers: seq<Paper>, a: PaperAnalysis): (panel: Panel)
    ensures panel.number == a.paperNumber && panel.position == a.relationToClaim
    ensures panel.title == OrElse(if 1 <= a.paperNumber <= |papers| then Some(papers[a.paperNumber - 1].title) else None,
                                  "Paper " + IntToString(a.paperNumber))
    ensures !(1 <= a.paperNumber <= |papers|) ==>
              panel.title == "Paper " + IntToString(a.paperNumber) && panel.authors == "Unknown"
              && panel.relevance == "Unknown" && panel.keyFindings == "Not specified" && panel.url == None
    ensures 1 <= a.paperNumber <= |papers| ==>
              var paper := papers[a.paperNumber - 1];
              panel.title == OrElse(Some(paper.title), "Paper " + IntToString(a.paperNumber))
              && panel.authors == OrElse(if paper.authors.Some? then Some(Join(paper.authors.value, ", ")) else None, "Unknown")
              && panel.relevance == OrElse(paper.relevance, "Unknown")
              && panel.keyFindings == OrElse(paper.keyFindings, "Not specified")
              && panel.url == Some(paper.url)
  {
    var p := PaperAt(papers, a.paperNumber);
    Panel(a.paperNumber,
          OrElse(if p.Some? then Some(p.value.title) else None, "Paper " + IntToString(a.paperNumber)),
          AuthorsLine(p),
          OrElse(if p.Some? then p.value.relevance else None, "Unknown"),
          a.relationToClaim,
          OrElse(if p.Some? then p.value.keyFindings else None, "Not specified"),
          if p.Some? then Some(p.value.url) else None)
  }

  /** One panel per analysis, in order. */
  function Panels(r: Response): (ps: seq<Panel>)
    ensures |ps| == |r.paperAnalyses|
    ensures forall i :: 0 <= i < |ps| ==> ps[i] == PanelFor(r.papers, r.paperAnalyses[i])
  {
    seq(|r.paperAnalyses|, i requires 0 <= i < |r.paperAnalyses| => PanelFor(r.papers, r.paperAnalyses[i]))
  }

  /** Whatever the response, no panel shows an empty title, authors line,
      relevance or key findings. */
  lemma PanelsNeverBlank(r: Response)
    ensures forall i :: 0 <= i < |Panels(r)| ==>
              Panels(r)[i].title != "" && Panels(r)[i].authors != ""
              && Panels(r)[i].relevance != "" && Panels(r)[i].keyFindings != ""
  {
    forall i | 0 <= i < |Panels(r)|
      ensures Panels(r)[i].title != "" && Panels(r)[i].authors != ""
              && Panels(r)[i].relevance != "" && Panels(r)[i].keyFindings != ""
    {
      var n := r.paperAnalyses[i].paperNumber;
      var fallback := "Paper " + IntToString(n);
      assert |fallback| > 0;
    }
  }

  /** One source card per reference, in order. */
  function SourceCards(r: Response): (cards: seq<Reference>)
    ensures |cards| == |r.references|
    ensures forall i :: 0 <= i < |cards| ==> cards[i] == r.references[i]
  {
    r.references
  }

  /** The detailed report card appears exactly when there is report text. */
  predicate ShowsReport(r: Response): (shows: bool)
    ensures shows <==> |r.humanFriendlyResponse| > 0
  {
    r.humanFriendlyResponse != ""
  }
}
