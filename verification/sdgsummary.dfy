/** The SDG summary chart: one bar per SDG counting the projects tagged
    with it, largest first, coloured by the goal number read from its short
    name. */
module SdgSummary {
  import opened Wrappers
  import opened Strs
  import Seqs
  import Numbers
  import Palette

  datatype Sdg = Sdg(name: string, shortName: string)

  datatype Row = Row(name: string, count: nat, shortName: string)

  const FallbackColor := "#8884d8"

  function ByCount(r: Row): int { r.count }

  /** `projects.filter(p => p.sdg === name).length`; a project's `sdg` may
      be missing. */
  function ProjectsTagged(tags: seq<Option<string>>, name: string): (n: nat)
    ensures n == Seqs.Count(tags, Some(name))
  {
    Seqs.FilterCount(tags, (t: Option<string>) => t == Some(name), Some(name));
    |Seqs.Filter(tags, (t: Option<string>) => t == Some(name))|
  }

  function Unsorted(sdgs: seq<Sdg>, tags: seq<Option<string>>): (rows: seq<Row>)
    ensures |rows| == |sdgs|
    ensures forall i :: 0 <= i < |sdgs| ==>
      rows[i] == Row(sdgs[i].name, ProjectsTagged(tags, sdgs[i].name), sdgs[i].shortName)
  {
    seq(|sdgs|, i requires 0 <= i < |sdgs| => Row(sdgs[i].name, ProjectsTagged(tags, sdgs[i].name), sdgs[i].shortName))
  }

  /** `sdgCounts`. */
  function Counts(sdgs: seq<Sdg>, tags: seq<Option<string>>): (rows: seq<Row>)
    ensures |rows| == |sdgs|
    ensures Seqs.SortedDesc(rows, ByCount)
    ensures multiset(rows) == multiset(Unsorted(sdgs, tags))
  {
    Seqs.SortDesc(Unsorted(sdgs, tags), ByCount)
  }

  /** Row `r` is the bar of `sdg`: its names and its project count. */
  predicate IsBarOf(r: Row, sdg: Sdg, tags: seq<Option<string>>) {
    r == Row(sdg.name, Seqs.Count(tags, Some(sdg.name)), sdg.shortName)
  }

  /** Every bar is one of the SDGs with the number of projects tagged with
      it, and every SDG has its bar. */
  lemma CountsSpec(sdgs: seq<Sdg>, tags: seq<Option<string>>)
    ensures forall i :: 0 <= i < |sdgs| ==> exists j :: 0 <= j < |sdgs| && IsBarOf(Counts(sdgs, tags)[j], sdgs[i], tags)
    ensures forall j :: 0 <= j < |sdgs| ==> exists i :: 0 <= i < |sdgs| && IsBarOf(Counts(sdgs, tags)[j], sdgs[i], tags)
  {
    var r := Counts(sdgs, tags);
    forall i | 0 <= i < |sdgs|
      ensures exists j :: 0 <= j < |sdgs| && IsBarOf(r[j], sdgs[i], tags)
    {
      HasBar(sdgs, tags, i);
    }
    forall j | 0 <= j < |sdgs|
      ensures exists i :: 0 <= i < |sdgs| && IsBarOf(r[j], sdgs[i], tags)
    {
      BarOfSome(sdgs, tags, j);
    }
  }

  lemma HasBar(sdgs: seq<Sdg>, tags: seq<Option<string>>, i: nat)
    requires i < |sdgs|
    ensures exists j :: 0 <= j < |sdgs| && IsBarOf(Counts(sdgs, tags)[j], sdgs[i], tags)
  {
    var u := Unsorted(sdgs, tags);
    var r := Counts(sdgs, tags);
    assert u[i] in multiset(r);
    var j :| 0 <= j < |r| && r[j] == u[i];
    assert IsBarOf(r[j], sdgs[i], tags);
  }

  lemma BarOfSome(sdgs: seq<Sdg>, tags: seq<Option<string>>, j: nat)
    requires j < |sdgs|
    ensures exists i :: 0 <= i < |sdgs| && IsBarOf(Counts(sdgs, tags)[j], sdgs[i], tags)
  {
    var u := Unsorted(sdgs, tags);
    var r := Counts(sdgs, tags);
    assert r[j] in multiset(u);
    var i :| 0 <= i < |u| && u[i] == r[j];
    assert IsBarOf(r[j], sdgs[i], tags);
  }

  /** `sdgColors[parseInt(shortName.replace("SDG ", "")) - 1] || "#8884d8"`. */
  function BarColor(shortName: string): string {
    ColorOfParsed(Numbers.ParseInt(ReplaceFirst(shortName, "SDG ", "")))
  }

  /** The colour for what `parseInt` read: the fallback for `NaN`. */
  function ColorOfParsed(o: Option<int>): string {
    match o
    case None => FallbackColor
    case Some(n) => Palette.ColorAt(n - 1, FallbackColor)
  }

  /** The bar of "SDG n" takes the official colour of goal `n` when there
      is one, the fallback otherwise. */
  lemma GoalColor(n: nat)
    ensures 1 <= n <= 17 ==> BarColor("SDG " + Numbers.Decimal(n)) == Palette.SdgColors[n - 1]
    ensures !(1 <= n <= 17) ==> BarColor("SDG " + Numbers.Decimal(n)) == FallbackColor
  {
    var d := Numbers.Decimal(n);
    ReplaceLeading("SDG ", d);
    Numbers.ParseDecimal(n, "");
    assert d + "" == d;
    ColorOfNumber("SDG " + d, d, n);
  }

  lemma ColorOfNumber(shortName: string, t: string, k: int)
    requires ReplaceFirst(shortName, "SDG ", "") == t && Numbers.ParseInt(t) == Some(k)
    ensures BarColor(shortName) == Palette.ColorAt(k - 1, FallbackColor)
  {
    assert BarColor(shortName) == ColorOfParsed(Some(k));
  }

  /** A short name without digits gets the fallback. */
  lemma NoNumberColor(shortName: string)
    requires forall k :: 0 <= k < |shortName| ==> !IsAsciiDigit(shortName[k])
    ensures BarColor(shortName) == FallbackColor
  {
    var t := ReplaceFirst(shortName, "SDG ", "");
    assert forall k :: 0 <= k < |t| ==> !IsAsciiDigit(t[k]) by {
      match Find(shortName, "SDG ")
      case None =>
      case Some(i) =>
        forall k | 0 <= k < |t|
          ensures !IsAsciiDigit(t[k])
        {
          if k < i {
            assert t[k] == shortName[k];
          } else {
            assert t[k] == shortName[k + 4];
          }
        }
    }
    Numbers.NoDigitsNoNumber(t);
  }
}
