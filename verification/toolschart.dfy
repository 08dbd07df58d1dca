/** The remote sensing tools bar chart: bars in the order of the first
    non-empty series, two-line axis labels, and the selected bar's colour. */
module ToolsChart {
  import opened Wrappers
  import opened Strs
  import Seqs
  import Ordering
  import Selection

  type Entry = Ordering.Entry

  /** One render: the bars drawn, and the captured order afterwards. The
      bars are computed before the capture, so the render that captures
      still draws the series as given. */
  datatype Frame = Frame(bars: seq<Entry>, captured: seq<string>)

  function Render(captured: seq<string>, counts: seq<Entry>): (f: Frame)
    ensures |captured| == 0 ==> f.bars == counts
    ensures |captured| > 0 ==> f.captured == captured
    ensures |captured| > 0 ==>
      Ordering.Names(f.bars) == Seqs.Filter(captured, (n: string) => n in Ordering.Names(counts))
    ensures forall i :: 0 <= i < |f.bars| ==> f.bars[i] in counts
  {
    if |captured| == 0 then Frame(counts, Ordering.Capture(captured, counts))
    else
      Ordering.ReorderNames(captured, counts);
      Frame(Ordering.Reorder(captured, counts), captured)
  }

  /** The first non-empty series is drawn as given and its names become the
      order; drawing it again gives the same bars. */
  lemma FirstSeries(counts: seq<Entry>)
    requires |counts| > 0 && Seqs.Distinct(Ordering.Names(counts))
    ensures Render([], counts).bars == counts
    ensures Render(Render([], counts).captured, counts).bars == counts
  {
    Ordering.ReorderOwn(counts);
  }

  /** Once captured, the order stays, and a later series whose tools were
      all in the first one is drawn completely, permuted into that order. */
  lemma LaterSeries(captured: seq<string>, counts: seq<Entry>)
    requires |captured| > 0 && Seqs.Distinct(captured) && Seqs.Distinct(Ordering.Names(counts))
    requires forall i :: 0 <= i < |counts| ==> counts[i].key in captured
    ensures Render(captured, counts).captured == captured
    ensures multiset(Render(captured, counts).bars) == multiset(counts)
  {
    Ordering.ReorderPermutes(captured, counts);
  }

  /** The x-axis label: up to two words on one line, otherwise the first
      half of the words (rounded up) on the first line and the rest on the
      second. */
  function TickLines(text: string): (lines: seq<string>)
    ensures 1 <= |lines| <= 2
    ensures |lines| == 1 <==> |SplitOn(text, " ")| <= 2
    ensures |lines| == 1 ==> lines[0] == text
  {
    var words := SplitOn(text, " ");
    if |words| <= 2 then [text]
    else
      var half := (|words| + 1) / 2;
      [Join(words[..half], " "), Join(words[half..], " ")]
  }

  /** Joining the two lines with a space gives the label back. */
  lemma TickLinesRejoin(text: string)
    requires |TickLines(text)| == 2
    ensures TickLines(text)[0] + " " + TickLines(text)[1] == text
  {
    var words := SplitOn(text, " ");
    var half := (|words| + 1) / 2;
    assert words == words[..half] + words[half..];
    JoinAppend(words[..half], words[half..], " ");
    JoinSplit(text, " ");
  }

  const BarColor := "#B4B4B4"
  const SelectedBarColor := "#4F46E5"

  /** `getCellFillColor`: the highlight exactly for the selected tool. */
  function BarFill(name: string, selected: Option<string>): (c: string)
    ensures c == SelectedBarColor <==> selected == Some(name)
    ensures c != SelectedBarColor ==> c == BarColor
  {
    Selection.Fill(name, selected, SelectedBarColor, BarColor)
  }
}
