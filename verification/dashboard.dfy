/** The dashboard's derived data: the filtered project list, and the three
    chart series built from it by grouped counting and a stable sort by
    count (tools, funding sources, SDGs), plus the region list. */
module Dashboard {
  import opened Wrappers
  import opened Strs
  import Seqs
  import Tallies

  /** A string-valued field of a JSON record as JavaScript reads it: absent,
      `null`, or a string. */
  datatype JsField = Undefined | Null | Text(s: string)

  datatype SdgGoal = SdgGoal(goal: JsField, name: Option<string>)

  /** The fields of a project record the dashboard reads. `donor` and
      `sdgGoals` may be missing. */
  datatype Project = Project(id: string, name: string, region: string, donor: Option<string>,
                             toolNames: seq<string>, sdgGoals: Option<seq<SdgGoal>>)

  /** The five filter controls; a `null` selection is `None`. */
  datatype Filters = Filters(region: string, fundingSearch: string, search: string,
                             tool: Option<string>, funding: Option<string>)

  const All := "All"

  /** JavaScript truthiness of an optional string. */
  predicate Truthy(o: Option<string>) {
    o.Some? && o.value != ""
  }

  predicate MatchesRegion(f: Filters, p: Project) {
    f.region == All || p.region == f.region
  }

  /** Case-insensitive substring search on the donor; a missing donor is
      searched as `""`. */
  predicate MatchesFundingSearch(f: Filters, p: Project) {
    f.fundingSearch == "" || Contains(Lower(p.donor.GetOr("")), Lower(f.fundingSearch))
  }

  predicate MatchesSearch(f: Filters, p: Project) {
    f.search == "" || Contains(Lower(p.name), Lower(f.search))
  }

  predicate MatchesTool(f: Filters, p: Project) {
    !Truthy(f.tool) || f.tool.value in p.toolNames
  }

  predicate MatchesFunding(f: Filters, p: Project) {
    !Truthy(f.funding) || p.donor == f.funding
  }

  predicate Matches(f: Filters, p: Project) {
    MatchesRegion(f, p) && MatchesFundingSearch(f, p) && MatchesSearch(f, p) &&
    MatchesTool(f, p) && MatchesFunding(f, p)
  }

  /** `filteredProjects`. */
  function Filtered(ps: seq<Project>, f: Filters): (r: seq<Project>)
    ensures forall p :: p in r <==> p in ps && Matches(f, p)
  {
    var r := Seqs.Filter(ps, (p: Project) => Matches(f, p));
    forall p
      ensures p in r <==> p in ps && Matches(f, p)
    {
      Seqs.FilterMembership(ps, (p: Project) => Matches(f, p), p);
    }
    r
  }

  /** The filter keeps the relative order of the projects it keeps. */
  lemma FilteredAppend(a: seq<Project>, b: seq<Project>, f: Filters)
    ensures Filtered(a + b, f) == Filtered(a, f) + Filtered(b, f)
  {
    Seqs.FilterAppend(a, b, (p: Project) => Matches(f, p));
  }

  /** With every control at its neutral value the list is unchanged. */
  lemma NeutralFilters(ps: seq<Project>)
    ensures Filtered(ps, Filters(All, "", "", None, None)) == ps
  {
    Seqs.FilterAll(ps, (p: Project) => Matches(Filters(All, "", "", None, None), p));
  }

  // ---------------------------------------------------------------------
  // toolCounts

  /** The keys of the tool description table. */
  const ToolNames := [
    "Satellite Imagery & Geospatial Analysis",
    "Interactive Dashboards & Decision Support",
    "Remote Monitoring & Early Warning",
    "AI-Powered Remote Sensing",
    "UAV & Aerial Data Integration"]

  type Event = Tallies.Event<string, string>
  type Entry = Tallies.Entry<string, string>

  /** One unit-weight event per name. */
  function UnitEvents(names: seq<string>, info: string): (evs: seq<Event>)
    ensures |evs| == |names|
    ensures forall i :: 0 <= i < |names| ==> evs[i] == Tallies.Event(names[i], 1, info)
  {
    seq(|names|, i requires 0 <= i < |names| => Tallies.Event(names[i], 1, info))
  }

  lemma {:induction false} UnitEventsSum(names: seq<string>, info: string, k: string)
    ensures Tallies.SumFor(UnitEvents(names, info), k) == Seqs.Count(names, k)
    decreases |names|
  {
    if |names| > 0 {
      var front := names[..|names| - 1];
      var last := names[|names| - 1];
      UnitEventsSum(front, info, k);
      assert UnitEvents(names, info)[..|names| - 1] == UnitEvents(front, info);
      assert names == front + [last];
      Seqs.CountSnoc(front, last, k);
    }
  }

  /** The tool occurrences the reduce counts, project by project. */
  function ToolEvents(ps: seq<Project>): seq<Event>
    decreases |ps|
  {
    if |ps| == 0 then []
    else
      var p := ps[|ps| - 1];
      ToolEvents(ps[..|ps| - 1]) + UnitEvents(Seqs.Filter(p.toolNames, (n: string) => n in ToolNames), "")
  }

  /** How many times `name` occurs among the projects' tools. */
  function ToolOccurrences(ps: seq<Project>, name: string): nat
    decreases |ps|
  {
    if |ps| == 0 then 0
    else ToolOccurrences(ps[..|ps| - 1], name) + Seqs.Count(ps[|ps| - 1].toolNames, name)
  }

  lemma {:induction false} CountFilter(s: seq<string>, k: string)
    requires k in ToolNames
    ensures Seqs.Count(Seqs.Filter(s, (n: string) => n in ToolNames), k) == Seqs.Count(s, k)
    decreases |s|
  {
    if |s| > 0 {
      var p := (n: string) => n in ToolNames;
      CountFilter(s[1..], k);
      Seqs.CountAppend(if p(s[0]) then [s[0]] else [], Seqs.Filter(s[1..], p), k);
    }
  }

  lemma {:induction false} ToolEventsSum(ps: seq<Project>, k: string)
    ensures Tallies.SumFor(ToolEvents(ps), k) == if k in ToolNames then ToolOccurrences(ps, k) else 0
    decreases |ps|
  {
    if |ps| > 0 {
      var p := ps[|ps| - 1];
      var kept := Seqs.Filter(p.toolNames, (n: string) => n in ToolNames);
      ToolEventsSum(ps[..|ps| - 1], k);
      Tallies.SumForAppend(ToolEvents(ps[..|ps| - 1]), UnitEvents(kept, ""), k);
      UnitEventsSum(kept, "", k);
      if k in ToolNames {
        CountFilter(p.toolNames, k);
      } else {
        Seqs.FilterMembership(p.toolNames, (n: string) => n in ToolNames, k);
        CountAbsent(kept, k);
      }
    }
  }

  lemma {:induction false} CountAbsent(s: seq<string>, k: string)
    requires k !in s
    ensures Seqs.Count(s, k) == 0
    decreases |s|
  {
    if |s| > 0 {
      CountAbsent(s[1..], k);
    }
  }

  function ByTotal(e: Entry): int { e.total }

  /** `toolCounts`: the grouped counts sorted by count, largest first. */
  function ToolCounts(ps: seq<Project>, f: Filters): seq<Entry> {
    Seqs.SortDesc(Tallies.Tally(ToolEvents(Filtered(ps, f))), ByTotal)
  }

  /** One entry per tool, every tool a known one, each count the number of
      times the tool is listed across the filtered projects, largest count
      first; every known tool listed by some filtered project has an entry. */
  lemma ToolCountsSpec(ps: seq<Project>, f: Filters)
    ensures var r := ToolCounts(ps, f);
      Seqs.SortedDesc(r, ByTotal) && Seqs.Distinct(Tallies.Keys(r)) &&
      (forall i :: 0 <= i < |r| ==>
        r[i].key in ToolNames && r[i].total == ToolOccurrences(Filtered(ps, f), r[i].key)) &&
      (forall k :: k in ToolNames && ToolOccurrences(Filtered(ps, f), k) > 0 ==> k in Tallies.Keys(r))
  {
    var fs := Filtered(ps, f);
    var evs := ToolEvents(fs);
    var r := ToolCounts(ps, f);
    Tallies.SortedTally(evs, ByTotal);
    ToolEventsKnown(fs);
    forall i | 0 <= i < |r|
      ensures r[i].key in ToolNames && r[i].total == ToolOccurrences(fs, r[i].key)
    {
      ToolEventsSum(fs, r[i].key);
    }
    forall k | k in ToolNames && ToolOccurrences(fs, k) > 0
      ensures k in Tallies.Keys(r)
    {
      ToolEventsSum(fs, k);
      Occurring(evs, k);
    }
  }

  /** A key with a non-zero sum occurs among the events. */
  lemma {:induction false} Occurring(evs: seq<Event>, k: string)
    requires Tallies.SumFor(evs, k) != 0
    ensures k in Tallies.EventKeys(evs)
    decreases |evs|
  {
    var front := evs[..|evs| - 1];
    if evs[|evs| - 1].key != k {
      Occurring(front, k);
      var j :| 0 <= j < |front| && Tallies.EventKeys(front)[j] == k;
      assert Tallies.EventKeys(evs)[j] == k;
    } else {
      assert Tallies.EventKeys(evs)[|evs| - 1] == k;
    }
  }

  lemma {:induction false} ToolEventsKnown(ps: seq<Project>)
    ensures forall i :: 0 <= i < |ToolEvents(ps)| ==> ToolEvents(ps)[i].key in ToolNames
    decreases |ps|
  {
    if |ps| > 0 {
      ToolEventsKnown(ps[..|ps| - 1]);
    }
  }

  // ---------------------------------------------------------------------
  // fundingSourceData

  /** `n` copies of `x`. */
  function Repeat<T>(x: T, n: nat): (r: seq<T>)
    ensures |r| == n
    ensures forall i :: 0 <= i < n ==> r[i] == x
  {
    seq(n, _ => x)
  }

  lemma {:induction false} CountRepeat(x: string, n: nat, k: string)
    ensures Seqs.Count(Repeat(x, n), k) == if x == k then n else 0
    decreases n
  {
    if n > 0 {
      assert Repeat(x, n)[1..] == Repeat(x, n - 1);
      CountRepeat(x, n - 1, k);
    }
  }

  /** The donor name once per listed tool, for projects with a donor and at
      least one tool. */
  function FundingNames(ps: seq<Project>): seq<string>
    decreases |ps|
  {
    if |ps| == 0 then []
    else
      var p := ps[|ps| - 1];
      FundingNames(ps[..|ps| - 1]) +
      (if Truthy(p.donor) && |p.toolNames| > 0 then Repeat(p.donor.value, |p.toolNames|) else [])
  }

  /** Total number of tools listed by projects funded by `name`. */
  function ToolsFundedBy(ps: seq<Project>, name: string): nat
    decreases |ps|
  {
    if |ps| == 0 then 0
    else
      var p := ps[|ps| - 1];
      ToolsFundedBy(ps[..|ps| - 1], name) + (if name != "" && p.donor == Some(name) then |p.toolNames| else 0)
  }

  /** `fundingSourceData`, values sorted largest first. */
  function FundingSourceData(ps: seq<Project>, f: Filters): seq<Entry> {
    FundingBarsOf(Filtered(ps, f))
  }

  lemma {:induction false} FundingNamesCount(ps: seq<Project>, k: string)
    ensures Seqs.Count(FundingNames(ps), k) == ToolsFundedBy(ps, k)
    decreases |ps|
  {
    if |ps| > 0 {
      var p := ps[|ps| - 1];
      var tail := if Truthy(p.donor) && |p.toolNames| > 0 then Repeat(p.donor.value, |p.toolNames|) else [];
      FundingNamesCount(ps[..|ps| - 1], k);
      Seqs.CountAppend(FundingNames(ps[..|ps| - 1]), tail, k);
      if Truthy(p.donor) && |p.toolNames| > 0 {
        CountRepeat(p.donor.value, |p.toolNames|, k);
      }
    }
  }

  lemma {:induction false} FundingNamesNonEmpty(ps: seq<Project>)
    ensures forall i :: 0 <= i < |FundingNames(ps)| ==> FundingNames(ps)[i] != ""
    decreases |ps|
  {
    if |ps| > 0 {
      FundingNamesNonEmpty(ps[..|ps| - 1]);
    }
  }

  /** One bar per donor, never an empty donor name, each value the number
      of tools listed by the filtered projects that donor funds, largest
      value first; every donor funding at least one listed tool has a bar. */
  lemma FundingSourceDataSpec(ps: seq<Project>, f: Filters)
    ensures var r := FundingSourceData(ps, f);
      Seqs.SortedDesc(r, ByTotal) && Seqs.Distinct(Tallies.Keys(r)) &&
      (forall i :: 0 <= i < |r| ==>
        r[i].key != "" && r[i].total == ToolsFundedBy(Filtered(ps, f), r[i].key)) &&
      (forall k :: ToolsFundedBy(Filtered(ps, f), k) > 0 ==> k in Tallies.Keys(r))
  {
    var fs := Filtered(ps, f);
    FundingBars(fs);
    assert FundingSourceData(ps, f) == FundingBarsOf(fs);
  }

  /** The bars of a list of projects: one per donor, largest first. */
  function FundingBarsOf(fs: seq<Project>): seq<Entry> {
    Seqs.SortDesc(Tallies.Tally(UnitEvents(FundingNames(fs), "")), ByTotal)
  }

  lemma FundingBars(fs: seq<Project>)
    ensures var r := FundingBarsOf(fs);
      Seqs.SortedDesc(r, ByTotal) && Seqs.Distinct(Tallies.Keys(r)) &&
      (forall i :: 0 <= i < |r| ==> r[i].key != "" && r[i].total == ToolsFundedBy(fs, r[i].key)) &&
      (forall k :: ToolsFundedBy(fs, k) > 0 ==> k in Tallies.Keys(r))
  {
    var names := FundingNames(fs);
    var evs := UnitEvents(names, "");
    var r := FundingBarsOf(fs);
    Tallies.SortedTally(evs, ByTotal);
    forall i | 0 <= i < |r|
      ensures r[i].key != "" && r[i].total == ToolsFundedBy(fs, r[i].key)
    {
      FundingBar(fs, i);
    }
    forall k | ToolsFundedBy(fs, k) > 0
      ensures k in Tallies.Keys(r)
    {
      UnitEventsSum(names, "", k);
      FundingNamesCount(fs, k);
      Occurring(evs, k);
    }
  }

  /** One bar: a donor's name and its tool count. */
  lemma FundingBar(fs: seq<Project>, i: nat)
    requires i < |FundingBarsOf(fs)|
    ensures var r := FundingBarsOf(fs); r[i].key != "" && r[i].total == ToolsFundedBy(fs, r[i].key)
  {
    var names := FundingNames(fs);
    var evs := UnitEvents(names, "");
    var r := FundingBarsOf(fs);
    Tallies.PermutedEntry(evs, r, i);
    FundingNamesNonEmpty(fs);
    UnitEventsSum(names, "", r[i].key);
    FundingNamesCount(fs, r[i].key);
  }

  // ---------------------------------------------------------------------
  // sdgImpactData

  /** `'SDG ' + sdg.sdg_goal`: string concatenation prints a missing goal
      as `undefined` and a `null` one as `null`. */
  function SdgName(g: SdgGoal): (n: string)
    ensures StartsWith(n, "SDG ")
    ensures g.goal.Text? ==> n == "SDG " + g.goal.s
    ensures g.goal.Undefined? ==> n == "SDG undefined"
    ensures g.goal.Null? ==> n == "SDG null"
  {
    match g.goal
    case Undefined => "SDG undefined"
    case Null => "SDG null"
    case Text(s) => "SDG " + s
  }

  /** Two goals share a bar exactly when their goal fields print alike:
      distinct goal strings never merge, while a missing goal merges with
      the string `undefined` and a `null` one with the string `null`. */
  lemma SdgNameMerges(g: SdgGoal, h: SdgGoal)
    ensures g.goal.Text? && h.goal.Text? ==> (SdgName(g) == SdgName(h) <==> g.goal.s == h.goal.s)
    ensures g.goal.Null? && h.goal == Text("null") ==> SdgName(g) == SdgName(h)
    ensures g.goal.Undefined? && h.goal == Text("undefined") ==> SdgName(g) == SdgName(h)
    ensures g.goal.Null? && h.goal.Undefined? ==> SdgName(g) != SdgName(h)
  {
    if g.goal.Text? && h.goal.Text? && SdgName(g) == SdgName(h) {
      assert SdgName(g)[4..] == g.goal.s && SdgName(h)[4..] == h.goal.s;
    }
    if g.goal.Null? && h.goal.Undefined? {
      assert SdgName(g)[4] != SdgName(h)[4];
    }
  }

  /** `sdg.name || 'Unknown SDG'`. */
  function SdgDescription(g: SdgGoal): (d: string)
    ensures d != ""
    ensures Truthy(g.name) ==> d == g.name.value
    ensures !Truthy(g.name) ==> d == "Unknown SDG"
  {
    if Truthy(g.name) then g.name.value else "Unknown SDG"
  }

  /** The goals of the projects in order; a missing list contributes none. */
  function AllGoals(ps: seq<Project>): (gs: seq<SdgGoal>)
    decreases |ps|
  {
    if |ps| == 0 then []
    else AllGoals(ps[..|ps| - 1]) + ps[|ps| - 1].sdgGoals.GetOr([])
  }

  function GoalEvents(gs: seq<SdgGoal>): (evs: seq<Event>)
    ensures |evs| == |gs|
    ensures forall i :: 0 <= i < |gs| ==> evs[i] == Tallies.Event(SdgName(gs[i]), 1, SdgDescription(gs[i]))
  {
    seq(|gs|, i requires 0 <= i < |gs| => Tallies.Event(SdgName(gs[i]), 1, SdgDescription(gs[i])))
  }

  /** How many goals of `gs` print as `name`. */
  function GoalsNamed(gs: seq<SdgGoal>, name: string): nat
    decreases |gs|
  {
    if |gs| == 0 then 0 else (if SdgName(gs[0]) == name then 1 else 0) + GoalsNamed(gs[1..], name)
  }

  /** Goal `j` is the first of `gs` printing as `name`. */
  predicate FirstNamed(gs: seq<SdgGoal>, name: string, j: int) {
    0 <= j < |gs| && SdgName(gs[j]) == name && forall j' :: 0 <= j' < j ==> SdgName(gs[j']) != name
  }

  /** `sdgImpactData`, counts sorted largest first. */
  function SdgImpactData(ps: seq<Project>, f: Filters): seq<Entry> {
    GoalBarsOf(AllGoals(Filtered(ps, f)))
  }

  lemma {:induction false} GoalsNamedCount(gs: seq<SdgGoal>, k: string)
    ensures Seqs.Count(Tallies.EventKeys(GoalEvents(gs)), k) == GoalsNamed(gs, k)
    decreases |gs|
  {
    if |gs| > 0 {
      GoalsNamedCount(gs[1..], k);
      assert Tallies.EventKeys(GoalEvents(gs))[1..] == Tallies.EventKeys(GoalEvents(gs[1..]));
    }
  }

  /** One bar per goal name, each count the number of goals of the filtered
      projects with that name, described by the first such goal; every
      goal name that occurs has a bar; largest count first. */
  lemma SdgImpactDataSpec(ps: seq<Project>, f: Filters)
    ensures IsGoalBars(AllGoals(Filtered(ps, f)), SdgImpactData(ps, f))
  {
    var gs := AllGoals(Filtered(ps, f));
    GoalBars(gs);
    assert SdgImpactData(ps, f) == GoalBarsOf(gs);
  }

  /** The bars of a list of goals: one per goal name, largest first. */
  function GoalBarsOf(gs: seq<SdgGoal>): seq<Entry> {
    Seqs.SortDesc(Tallies.Tally(GoalEvents(gs)), ByTotal)
  }

  /** `r` holds one bar per goal name of `gs`, largest count first: each
      count is the number of goals with that name, each description that of
      the first such goal, and every goal name has a bar. */
  ghost predicate IsGoalBars(gs: seq<SdgGoal>, r: seq<Entry>) {
    Seqs.SortedDesc(r, ByTotal) && Seqs.Distinct(Tallies.Keys(r)) &&
    (forall i :: 0 <= i < |r| ==>
      r[i].total == GoalsNamed(gs, r[i].key) &&
      exists j :: FirstNamed(gs, r[i].key, j) && r[i].info == SdgDescription(gs[j])) &&
    (forall j :: 0 <= j < |gs| ==> SdgName(gs[j]) in Tallies.Keys(r))
  }

  lemma GoalBars(gs: seq<SdgGoal>)
    ensures IsGoalBars(gs, GoalBarsOf(gs))
  {
    var evs := GoalEvents(gs);
    var r := GoalBarsOf(gs);
    Tallies.SortedTally(evs, ByTotal);
    forall i | 0 <= i < |r|
      ensures r[i].total == GoalsNamed(gs, r[i].key)
      ensures exists j :: FirstNamed(gs, r[i].key, j) && r[i].info == SdgDescription(gs[j])
    {
      GoalBar(gs, i);
    }
    forall j | 0 <= j < |gs|
      ensures SdgName(gs[j]) in Tallies.Keys(r)
    {
      assert Tallies.EventKeys(evs)[j] == SdgName(gs[j]);
    }
  }

  /** One bar: its count and its description. */
  lemma GoalBar(gs: seq<SdgGoal>, i: nat)
    requires i < |GoalBarsOf(gs)|
    ensures var r := GoalBarsOf(gs);
      r[i].total == GoalsNamed(gs, r[i].key) &&
      exists j :: FirstNamed(gs, r[i].key, j) && r[i].info == SdgDescription(gs[j])
  {
    var evs := GoalEvents(gs);
    var r := GoalBarsOf(gs);
    var k := r[i].key;
    Tallies.PermutedEntry(evs, r, i);
    Tallies.SumForUnit(evs, k);
    GoalsNamedCount(gs, k);
    Tallies.FirstInfoEarliest(evs, k);
    var j :| Tallies.Earliest(evs, k, j) && evs[j].info == Tallies.FirstInfo(evs, k).value;
    assert forall j' :: 0 <= j' < j ==> evs[j'].key == SdgName(gs[j']);
    assert FirstNamed(gs, k, j);
  }

  // ---------------------------------------------------------------------
  // regions

  /** `["All", ...new Set(projects.map(p => p.region))]`, over all projects. */
  function Regions(ps: seq<Project>): (r: seq<string>)
    ensures |r| > 0 && r[0] == All
  {
    [All] + Seqs.Dedup(seq(|ps|, i requires 0 <= i < |ps| => ps[i].region))
  }

  /** After the leading "All", each region once, exactly the regions of the
      projects. */
  lemma RegionsSpec(ps: seq<Project>)
    ensures Seqs.Distinct(Regions(ps)[1..])
    ensures forall x :: x in Regions(ps)[1..] <==> exists i :: 0 <= i < |ps| && ps[i].region == x
  {
    var rs := seq(|ps|, i requires 0 <= i < |ps| => ps[i].region);
    assert Regions(ps)[1..] == Seqs.Dedup(rs);
    forall x
      ensures x in Regions(ps)[1..] <==> exists i :: 0 <= i < |ps| && ps[i].region == x
    {
      if exists i :: 0 <= i < |ps| && ps[i].region == x {
        var i :| 0 <= i < |ps| && ps[i].region == x;
        assert rs[i] == x;
      }
    }
  }

  /** First-appearance order: the region list of a prefix of the projects
      is a prefix of the whole list, so a region is listed before every
      region that first appears after it. */
  lemma RegionsPrefix(ps: seq<Project>, n: nat)
    requires n <= |ps|
    ensures Regions(ps[..n]) <= Regions(ps)
  {
    var rs := seq(|ps|, i requires 0 <= i < |ps| => ps[i].region);
    var pre := seq(n, i requires 0 <= i < n => ps[..n][i].region);
    assert pre == rs[..n];
    assert rs == rs[..n] + rs[n..];
    Seqs.DedupPrefix(rs[..n], rs[n..]);
  }
}
