/** The relevance pie chart: papers counted by relevance label in first-seen
    order, a colour per label, integer percentages and the no-data case. */
module Chart {

  import opened Common
  import opened ClientTypes

  /** One slice: a label and how many papers carry it. */
  datatype Slice = Slice(name: string, value: nat)

  /** `paper.relevance || "Unknown"`: a missing or empty relevance counts
      as "Unknown". */
  function RelevanceLabel(p: Paper): (l: string)
    ensures l != ""
    ensures p.relevance.Some? && p.relevance.value != "" ==> l == p.relevance.value
    ensures p.relevance.None? || p.relevance.value == "" ==> l == "Unknown"
  {
    if p.relevance.Some? && p.relevance.value != "" then p.relevance.value else "Unknown"
  }

  function Labels(papers: seq<Paper>): (ls: seq<string>)
    ensures |ls| == |papers|
    ensures forall i :: 0 <= i < |papers| ==> ls[i] == RelevanceLabel(papers[i])
  {
    seq(|papers|, i requires 0 <= i < |papers| => RelevanceLabel(papers[i]))
  }

  /** `relevanceCounts[name] || 0`: the count of a label, 0 when absent. */
  function CountOf(slices: seq<Slice>, name: string): nat
  {
    if slices == [] then 0
    else if slices[0].name == name then slices[0].value
    else CountOf(slices[1..], name)
  }

  /** No label appears in two slices. */
  predicate Distinct(slices: seq<Slice>)
  {
    forall i, j :: 0 <= i < j < |slices| ==> slices[i].name != slices[j].name
  }

  function Sum(slices: seq<Slice>): nat
  {
    if slices == [] then 0 else slices[0].value + Sum(slices[1..])
  }

  /** `acc[name] = (acc[name] || 0) + 1`: the label's slice grows by one,
      or a new slice of one is added at the end. */
  function Bump(slices: seq<Slice>, name: string): (r: seq<Slice>)
    ensures |r| == |slices| || (|r| == |slices| + 1 && r[|slices|] == Slice(name, 1))
    ensures forall i :: 0 <= i < |slices| ==> r[i].name == slices[i].name
  {
    if slices == [] then [Slice(name, 1)]
    else if slices[0].name == name then [Slice(name, slices[0].value + 1)] + slices[1..]
    else [slices[0]] + Bump(slices[1..], name)
  }

  /** The reduce over the labels, as a value. */
  function Tally(labels: seq<string>): seq<Slice>
  {
    if labels == [] then [] else Bump(Tally(labels[..|labels| - 1]), labels[|labels| - 1])
  }

  /** The counting reduce, updating its accumulator once per paper. */
  method CountRelevance(papers: seq<Paper>) returns (counts: seq<Slice>)
    ensures counts == Tally(Labels(papers))
  {
    counts := [];
    ghost var labels := Labels(papers);
    for i := 0 to |papers|
      invariant counts == Tally(labels[..i])
    {
      assert labels[..i + 1][..i] == labels[..i];
      counts := Bump(counts, RelevanceLabel(papers[i]));
    }
    assert labels[..|papers|] == labels;
  }

  lemma {:induction false} BumpCount(slices: seq<Slice>, name: string, other: string)
    ensures CountOf(Bump(slices, name), other) == CountOf(slices, other) + (if name == other then 1 else 0)
  {
    if slices != [] && slices[0].name != name {
      BumpCount(slices[1..], name, other);
      assert Bump(slices, name)[1..] == Bump(slices[1..], name);
    }
  }

  lemma {:induction false} BumpSum(slices: seq<Slice>, name: string)
    ensures Sum(Bump(slices, name)) == Sum(slices) + 1
  {
    if slices == [] {
    } else if slices[0].name == name {
      assert ([Slice(name, slices[0].value + 1)] + slices[1..])[1..] == slices[1..];
    } else {
      BumpSum(slices[1..], name);
      assert Bump(slices, name)[1..] == Bump(slices[1..], name);
    }
  }

  lemma {:induction false} BumpDistinct(slices: seq<Slice>, name: string)
    requires Distinct(slices)
    ensures Distinct(Bump(slices, name))
  {
    var r := Bump(slices, name);
    if |r| == |slices| + 1 {
      BumpNewName(slices, name);
    }
  }

  /** A new slice is added only for a label no slice has. */
  lemma {:induction false} BumpNewName(slices: seq<Slice>, name: string)
    requires |Bump(slices, name)| == |slices| + 1
    ensures forall i :: 0 <= i < |slices| ==> slices[i].name != name
  {
    if slices != [] {
      assert slices[0].name != name;
      BumpNewName(slices[1..], name);
      assert forall i :: 1 <= i < |slices| ==> slices[i] == slices[1..][i - 1];
    }
  }

  /** Each label's count is the number of papers carrying it. */
  lemma {:induction false} TallyCounts(labels: seq<string>, name: string)
    ensures CountOf(Tally(labels), name) == multiset(labels)[name]
  {
    if labels != [] {
      var init := labels[..|labels| - 1];
      TallyCounts(init, name);
      BumpCount(Tally(init), labels[|labels| - 1], name);
      assert labels == init + [labels[|labels| - 1]];
    }
  }

  /** The counts add up to the number of papers, and no label has two
      slices. */
  lemma {:induction false} TallySumAndDistinct(labels: seq<string>)
    ensures Sum(Tally(labels)) == |labels|
    ensures Distinct(Tally(labels))
  {
    if labels != [] {
      var init := labels[..|labels| - 1];
      TallySumAndDistinct(init);
      BumpSum(Tally(init), labels[|labels| - 1]);
      BumpDistinct(Tally(init), labels[|labels| - 1]);
    }
  }

  /** There is no slice exactly when there is no paper. */
  lemma TallyEmptyIff(labels: seq<string>)
    ensures Tally(labels) == [] <==> labels == []
  {
    if labels != [] {
      var r := Tally(labels);
      assert |r| >= 1;
    }
  }

  // ---------------------------------------------------------------------
  // Rendering

  datatype ChartView = NoData | Pie(slices: seq<Slice>, total: nat)

  /** The chart: the no-data message without papers, otherwise the slices
      and the total of their counts, which is the number of papers, so no
      percentage divides by zero. */
  function View(papers: seq<Paper>): (v: ChartView)
    ensures v.NoData? <==> papers == []
    ensures v.Pie? ==> v.total == |papers| > 0 && v.slices == Tally(Labels(papers))
  {
    var slices := Tally(Labels(papers));
    TallyEmptyIff(Labels(papers));
    TallySumAndDistinct(Labels(papers));
    if slices == [] then NoData else Pie(slices, Sum(slices))
  }

  /** `Math.round(count / total * 100)` in integers: the nearest whole
      percentage, halves rounded up. */
  function Percent(count: nat, total: nat): (p: nat)
    requires total > 0
    ensures 2 * total * p <= 200 * count + total < 2 * total * (p + 1)
  {
    (200 * count + total) / (2 * total)
  }

  /** A count within the total gives a percentage within 0..100, and a
      label absent from the slices shows 0 %. */
  lemma PercentBounds(count: nat, total: nat)
    requires 0 < total && count <= total
    ensures Percent(count, total) <= 100
    ensures count == 0 ==> Percent(count, total) == 0
  {
    var p := Percent(count, total);
    if p > 100 {
      MulMonotone(101, p, 2 * total);
    }
  }

  lemma MulMonotone(a: nat, b: nat, c: nat)
    requires a <= b
    ensures a * c <= b * c
  {
  }

  /** The legend entry of a label: its count (0 when absent) and its
      percentage of the total. */
  function LegendEntry(slices: seq<Slice>, total: nat, name: string): (entry: (nat, nat))
    requires total > 0
    ensures entry.0 == CountOf(slices, name)
    ensures entry.1 == Percent(entry.0, total)
    ensures 2 * total * entry.1 <= 200 * entry.0 + total < 2 * total * (entry.1 + 1)
  {
    var count := CountOf(slices, name);
    (count, Percent(count, total))
  }

  /** The colour of the Unknown slice, which every unrecognised label
      shares. */
  function UnknownColor(isDark: bool): string
  {
    if isDark then "#cbd5e1" else "#64748b"
  }

  /** getColor: the four known labels have their own colour; any other
      label gets the colour of Unknown. */
  function SliceColor(name: string, isDark: bool): (c: string)
    ensures name != "High" && name != "Medium" && name != "Low" ==> c == UnknownColor(isDark)
    ensures name == "High" || name == "Medium" || name == "Low" ==> c != UnknownColor(isDark)
  {
    if name == "High" then (if isDark then "#4ade80" else "#16a34a")
    else if name == "Medium" then (if isDark then "#facc15" else "#ca8a04")
    else if name == "Low" then (if isDark then "#f87171" else "#dc2626")
    else UnknownColor(isDark)
  }
}
