/** The funding source bar chart: the captured order is taken before the
    bars are computed, the bars are then sorted by value (ties in captured
    order) and cut to the top twenty. */
module FundingBar {
  import opened Wrappers
  import Seqs
  import Selection
  import Ordering

  type Entry = Ordering.Entry

  const MaxBars := 20
  const BarColor := "#009edb"
  const SelectedBarColor := "#008edb"

  /** `getCellFillColor`: the darker blue exactly for the selected source. */
  function BarFill(name: string, selected: Option<string>): (c: string)
    ensures c == SelectedBarColor <==> selected == Some(name)
    ensures c != SelectedBarColor ==> c == BarColor
  {
    Selection.Fill(name, selected, SelectedBarColor, BarColor)
  }

  function ByValue(e: Entry): int { e.total }

  datatype Frame = Frame(bars: seq<Entry>, captured: seq<string>)

  /** One render of the chart for series `data`. */
  function Render(captured: seq<string>, data: seq<Entry>): (f: Frame)
    ensures |f.bars| <= MaxBars
    ensures Seqs.SortedDesc(f.bars, ByValue)
    ensures f.captured == Ordering.Capture(captured, data)
    ensures forall i :: 0 <= i < |f.bars| ==> f.bars[i] in data
    ensures |captured| > 0 ==> forall i :: 0 <= i < |f.bars| ==> f.bars[i].key in captured
  {
    var c := Ordering.Capture(captured, data);
    var source := if |c| == 0 then data else Ordering.Reorder(c, data);
    var sorted := Seqs.SortDesc(source, ByValue);
    var bars := Seqs.Take(sorted, MaxBars);
    forall i | 0 <= i < |bars|
      ensures bars[i] in data
      ensures |captured| > 0 ==> bars[i].key in captured
    {
      Seqs.SortMembership(source, ByValue, bars[i]);
      if |captured| > 0 {
        CapturedKey(captured, data, bars[i]);
      }
    }
    Frame(bars, c)
  }

  /** A bar re-listed in captured order carries a captured name. */
  lemma CapturedKey(captured: seq<string>, data: seq<Entry>, e: Entry)
    requires e in Ordering.Reorder(captured, data)
    ensures e.key in captured
  {
    var source := Ordering.Reorder(captured, data);
    var j :| 0 <= j < |source| && source[j] == e;
    Ordering.ReorderNames(captured, data);
    assert Ordering.Names(source)[j] == e.key;
    Seqs.FilterMembership(captured, (n: string) => n in Ordering.Names(data), e.key);
  }

  /** The bars are the largest values: any entry cut off is no larger than
      any entry drawn. */
  lemma TopValues(captured: seq<string>, data: seq<Entry>)
    ensures var c := Ordering.Capture(captured, data);
      var sorted := Seqs.SortDesc(if |c| == 0 then data else Ordering.Reorder(c, data), ByValue);
      var bars := Render(captured, data).bars;
      bars == Seqs.Take(sorted, MaxBars) &&
      forall i, j :: 0 <= i < |bars| <= j < |sorted| ==> bars[i].total >= sorted[j].total
  {
  }

  /** The first series is drawn as its own top twenty: the capture happens
      in the same render, and re-listing a series in its own order changes
      nothing. */
  lemma FirstRender(data: seq<Entry>)
    requires Seqs.Distinct(Ordering.Names(data))
    ensures Render([], data).bars == Seqs.Take(Seqs.SortDesc(data, ByValue), MaxBars)
  {
    if |data| > 0 {
      Ordering.ReorderOwn(data);
    }
  }

  /** The dashboard's funding series, re-listed in any captured order that
      covers it, is drawn as its own top twenty. */
  lemma DashboardSeries(captured: seq<string>, data: seq<Entry>)
    requires Seqs.Distinct(captured) && Seqs.Distinct(Ordering.Names(data))
    requires Seqs.SortedDesc(data, ByValue)
    requires |captured| > 0
    requires Ordering.Names(data) == Seqs.Filter(captured, (n: string) => n in Ordering.Names(data))
    ensures Render(captured, data).bars == Seqs.Take(data, MaxBars)
  {
    var r := Ordering.Reorder(captured, data);
    Ordering.ReorderNames(captured, data);
    SameNamesSame(r, data);
    Seqs.SortSorted(data, ByValue);
  }

  /** Two series drawn from the same entries with the same names in the
      same order are equal. */
  lemma SameNamesSame(r: seq<Entry>, data: seq<Entry>)
    requires Seqs.Distinct(Ordering.Names(data))
    requires forall i :: 0 <= i < |r| ==> r[i] in data
    requires Ordering.Names(r) == Ordering.Names(data)
    ensures r == data
  {
    forall i | 0 <= i < |r|
      ensures r[i] == data[i]
    {
      SameNameSameEntry(r, data, i);
    }
  }

  lemma SameNameSameEntry(r: seq<Entry>, data: seq<Entry>, i: nat)
    requires Seqs.Distinct(Ordering.Names(data))
    requires i < |r| && r[i] in data
    requires Ordering.Names(r) == Ordering.Names(data)
    ensures r[i] == data[i]
  {
    var ns := Ordering.Names(data);
    var j :| 0 <= j < |data| && data[j] == r[i];
    assert ns[j] == data[j].key == r[i].key;
    assert ns[i] == Ordering.Names(r)[i] == r[i].key;
  }
}
