/** The SDG impact graph: the "SDG N/A" bar dropped, bars sorted by count,
    an inner pie ring grouping the bars by the first word of their name,
    outer-slice labels only for large slices, and two-line axis captions
    split at " and ". */
module SdgGraph {
  import opened Wrappers
  import opened Strs
  import Seqs
  import Tallies
  import Palette

  type Entry = Tallies.Entry<string, string>

  const NotApplicable := "SDG N/A"
  const FallbackColor := "#b3b3b3"
  const LabelThreshold := 8

  function ByCount(e: Entry): int { e.total }

  /** `filteredData`: every bar except the one named "SDG N/A", in order. */
  function Shown(data: seq<Entry>): (r: seq<Entry>)
    ensures forall e :: e in r <==> e in data && e.key != NotApplicable
  {
    var r := Seqs.Filter(data, (e: Entry) => e.key != NotApplicable);
    forall e
      ensures e in r <==> e in data && e.key != NotApplicable
    {
      Seqs.FilterMembership(data, (e: Entry) => e.key != NotApplicable, e);
    }
    r
  }

  /** Dropping the "SDG N/A" bar keeps the other bars in their order:
      the filter distributes over concatenation ... */
  lemma ShownAppend(a: seq<Entry>, b: seq<Entry>)
    ensures Shown(a + b) == Shown(a) + Shown(b)
  {
    Seqs.FilterAppend(a, b, (e: Entry) => e.key != NotApplicable);
  }

  /** ... and keeps exactly the single bars not named "SDG N/A". */
  lemma ShownSingle(e: Entry)
    ensures e.key != NotApplicable ==> Shown([e]) == [e]
    ensures e.key == NotApplicable ==> Shown([e]) == []
  {
    assert [e][1..] == [];
  }

  /** `sortedData`: the shown bars, largest count first. */
  function SortedBars(data: seq<Entry>): (r: seq<Entry>)
    ensures Seqs.SortedDesc(r, ByCount)
    ensures multiset(r) == multiset(Shown(data))
  {
    Seqs.SortDesc(Shown(data), ByCount)
  }

  /** The dashboard already sends the bars sorted; the graph keeps that
      order. */
  lemma SortedInputKept(data: seq<Entry>)
    requires Seqs.SortedDesc(data, ByCount)
    ensures SortedBars(data) == Shown(data)
  {
    var s := Shown(data);
    assert Seqs.SortedDesc(s, ByCount) by {
      SortedFilter(data, (e: Entry) => e.key != NotApplicable);
    }
    Seqs.SortSorted(s, ByCount);
  }

  lemma {:induction false} SortedFilter(s: seq<Entry>, p: Entry -> bool)
    requires Seqs.SortedDesc(s, ByCount)
    ensures Seqs.SortedDesc(Seqs.Filter(s, p), ByCount)
    decreases |s|
  {
    if |s| > 0 {
      SortedFilter(s[1..], p);
      var rest := Seqs.Filter(s[1..], p);
      forall k | 0 <= k < |rest|
        ensures ByCount(rest[k]) <= ByCount(s[0])
      {
        Seqs.FilterMembership(s[1..], p, rest[k]);
      }
    }
  }

  // ---------------------------------------------------------------------
  // Inner ring

  /** `item.name.split(' ')[0]`. */
  function Category(name: string): string {
    SplitOn(name, " ")[0]
  }

  function CategoryEvents(data: seq<Entry>): (evs: seq<Tallies.Event<string, string>>)
    ensures |evs| == |data|
    ensures forall i :: 0 <= i < |data| ==> evs[i] == Tallies.Event(Category(data[i].key), data[i].total, "")
  {
    seq(|data|, i requires 0 <= i < |data| => Tallies.Event(Category(data[i].key), data[i].total, ""))
  }

  /** `innerRingData`: the shown bars' counts summed per category. */
  function InnerRing(data: seq<Entry>): seq<Entry> {
    Tallies.Tally(CategoryEvents(Shown(data)))
  }

  /** The inner ring has one slice per category and the same total as the
      outer ring. */
  lemma InnerRingSpec(data: seq<Entry>)
    ensures Seqs.Distinct(Tallies.Keys(InnerRing(data)))
    ensures Tallies.SumTotals(InnerRing(data)) == Tallies.SumTotals(Shown(data))
  {
    var evs := CategoryEvents(Shown(data));
    Tallies.TallyDistinct(evs);
    Tallies.TallyPreservesTotal(evs);
    WeightsAreTotals(Shown(data));
  }

  lemma {:induction false} WeightsAreTotals(data: seq<Entry>)
    ensures Tallies.SumWeights(CategoryEvents(data)) == Tallies.SumTotals(data)
    decreases |data|
  {
    if |data| > 0 {
      var front := data[..|data| - 1];
      WeightsAreTotals(front);
      assert CategoryEvents(data)[..|data| - 1] == CategoryEvents(front);
    }
  }

  /** Every goal name starts with "SDG ", so the category is always "SDG". */
  lemma SdgCategory(x: string)
    ensures Category("SDG " + x) == "SDG"
  {
    var name := "SDG " + x;
    assert OccursAt(name, " ", 3);
    match Find(name, " ")
    case Some(i) =>
      assert name[0] != ' ' && name[1] != ' ' && name[2] != ' ';
      assert !OccursAt(name, " ", 0) && !OccursAt(name, " ", 1) && !OccursAt(name, " ", 2);
      assert i == 3;
  }

  /** With only goal names, the inner ring is a single "SDG" slice holding
      the whole count. */
  lemma OneInnerSlice(data: seq<Entry>)
    requires forall i :: 0 <= i < |data| ==> StartsWith(data[i].key, "SDG ")
    requires |Shown(data)| > 0
    ensures |InnerRing(data)| == 1
    ensures InnerRing(data)[0].key == "SDG"
    ensures InnerRing(data)[0].total == Tallies.SumTotals(Shown(data))
  {
    var s := Shown(data);
    var evs := CategoryEvents(s);
    forall i | 0 <= i < |s|
      ensures evs[i].key == "SDG"
    {
      assert s[i] in data;
      var j :| 0 <= j < |data| && data[j] == s[i];
      assert data[j].key == "SDG " + data[j].key[4..];
      SdgCategory(data[j].key[4..]);
    }
    SingleKey(evs, "SDG");
    WeightsAreTotals(s);
  }

  lemma {:induction false} SingleKey(evs: seq<Tallies.Event<string, string>>, k: string)
    requires |evs| > 0
    requires forall i :: 0 <= i < |evs| ==> evs[i].key == k
    ensures Tallies.Tally(evs) == [Tallies.Entry(k, Tallies.SumWeights(evs), evs[0].info)]
    decreases |evs|
  {
    if |evs| > 1 {
      var front := evs[..|evs| - 1];
      SingleKey(front, k);
    }
  }

  // ---------------------------------------------------------------------
  // Labels and colours

  /** Outer slices below eight projects carry no label. */
  predicate LabelShown(count: int) {
    count >= LabelThreshold
  }

  /** `sdgColors[entry.name] || "#b3b3b3"`. */
  function SliceColor(name: string): (c: string)
    ensures name in Palette.GraphColors ==> c == Palette.GraphColors[name]
    ensures name !in Palette.GraphColors ==> c == FallbackColor
  {
    var m := Palette.GraphColors;
    if name in m then m[name] else FallbackColor
  }

  /** Goal `n` in 1..17 gets the shared colour of goal `n`; anything else,
      "SDG N/A" included, the grey fallback. */
  lemma SliceColors()
    ensures forall i :: 0 <= i < |Palette.GraphNames| ==> SliceColor(Palette.GraphNames[i]) == Palette.SdgColors[i]
    ensures SliceColor(NotApplicable) == FallbackColor
  {
    Palette.GraphAgrees();
    assert NotApplicable !in Palette.GraphColors by {
      forall i | 0 <= i < |Palette.GraphNames|
        ensures Palette.GraphNames[i] != NotApplicable
      {
        assert Palette.GraphNames[i][4] != NotApplicable[4];
      }
    }
  }

  // ---------------------------------------------------------------------
  // Axis captions

  /** The caption under a bar: the description of the first bar with that
      name, or empty. */
  function DescriptionOf(data: seq<Entry>, name: string): (d: string)
    ensures d != "" ==> exists i :: 0 <= i < |data| && data[i].key == name && data[i].info == d
    ensures forall i :: 0 <= i < |data| && data[i].key == name && (forall k :: 0 <= k < i ==> data[k].key != name) ==> d == data[i].info
    ensures (forall i :: 0 <= i < |data| ==> data[i].key != name) ==> d == ""
    decreases |data|
  {
    if |data| == 0 then ""
    else if data[0].key == name then data[0].info
    else
      var d := DescriptionOf(data[1..], name);
      assert d != "" ==> exists i :: 1 <= i < |data| && data[i].key == name && data[i].info == d by {
        if d != "" {
          var i :| 0 <= i < |data| - 1 && data[1..][i].key == name && data[1..][i].info == d;
          assert data[i + 1] == data[1..][i];
        }
      }
      forall i | 0 <= i < |data| && data[i].key == name && (forall k :: 0 <= k < i ==> data[k].key != name)
        ensures d == data[i].info
      {
        assert i > 0;
        assert data[1..][i - 1] == data[i];
        assert forall k :: 0 <= k < i - 1 ==> data[1..][k].key != name by {
          forall k | 0 <= k < i - 1 ensures data[1..][k].key != name {
            assert data[1..][k] == data[k + 1];
          }
        }
      }
      assert (forall i :: 0 <= i < |data| ==> data[i].key != name) ==> forall i :: 0 <= i < |data| - 1 ==> data[1..][i].key != name;
      d
  }

  const AndSep := " and "

  /** A description holding " and " is shown on two lines: the text before
      the first " and " followed by " & ", then the rest. */
  function CaptionLines(description: string): (lines: (string, string))
    ensures !Contains(description, AndSep) ==> lines == (description, "")
    ensures Contains(description, AndSep) ==> EndsWith(lines.0, " & ")
  {
    if Contains(description, AndSep) then
      var parts := SplitOn(description, AndSep);
      (parts[0] + " & ", Join(parts[1..], AndSep))
    else (description, "")
  }

  /** Putting " and " back where the first line's " & " stands gives the
      description; the first line holds no " and " of its own. */
  lemma CaptionRejoin(description: string)
    requires Contains(description, AndSep)
    ensures var (a, b) := CaptionLines(description);
      a[..|a| - 3] + AndSep + b == description && !Contains(a[..|a| - 3], AndSep)
  {
    var parts := SplitOn(description, AndSep);
    SplitHead(description, AndSep);
    var (a, b) := CaptionLines(description);
    assert a[..|a| - 3] == parts[0];
    assert parts == [parts[0]] + parts[1..];
    JoinAppend([parts[0]], parts[1..], AndSep);
    JoinSplit(description, AndSep);
  }
}
