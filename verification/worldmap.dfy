/** The world map: projects are spread over fixed dots of their region by
    `id % dots`, each non-empty dot is drawn in the colour of the goal of
    its first project, and hovering a dot lists at most five projects. */
module WorldMap {
  import opened Wrappers
  import opened Strs
  import Seqs
  import Numbers
  import Palette

  datatype Location = Location(region: string, x: int, y: int)

  datatype MapProject = MapProject(id: int, name: string, region: string, sdg: string, status: string)

  /** The static dots, in drawing order. */
  const Locations: seq<Location> := [
    Location("Africa", 500, 350), Location("Africa", 520, 320),
    Location("Africa", 480, 380), Location("Africa", 450, 340),
    Location("Asia", 700, 250), Location("Asia", 750, 220),
    Location("Asia", 680, 280), Location("Asia", 730, 300),
    Location("Europe", 520, 200), Location("Europe", 490, 180), Location("Europe", 540, 170),
    Location("Latin America and Caribbean", 300, 350),
    Location("Latin America and Caribbean", 280, 380),
    Location("Latin America and Caribbean", 320, 320),
    Location("Middle East", 580, 250), Location("Middle East", 560, 270),
    Location("North America", 250, 200), Location("North America", 220, 220),
    Location("North America", 280, 180),
    Location("Oceania", 800, 400), Location("Oceania", 820, 420)]

  const FallbackColor := "#8884d8"
  const HoverLimit := 5

  // ---------------------------------------------------------------------
  // Distribution
  // ---------------------------------------------------------------------

  /** Indices, from `j` on, of the dots of `region`, in order. */
  function SlotsFrom(locs: seq<Location>, region: string, j: nat): (r: seq<nat>)
    requires j <= |locs|
    ensures forall k :: 0 <= k < |r| ==> j <= r[k] < |locs| && locs[r[k]].region == region
    ensures forall i :: j <= i < |locs| && locs[i].region == region ==> i in r
    decreases |locs| - j
  {
    if j == |locs| then []
    else (if locs[j].region == region then [j] else []) + SlotsFrom(locs, region, j + 1)
  }

  /** The dots of a region (`projectLocations.filter(...)`). */
  function Slots(locs: seq<Location>, region: string): seq<nat> {
    SlotsFrom(locs, region, 0)
  }

  /** Where one project goes: nowhere for an unknown region, a dot of its
      region otherwise; a negative remainder indexes past the array and
      the `push` on `undefined` throws. */
  datatype Placement = Unplaced | Dot(index: nat) | Throws

  function Place(locs: seq<Location>, p: MapProject): (r: Placement)
    ensures r.Unplaced? <==> forall i :: 0 <= i < |locs| ==> locs[i].region != p.region
    ensures r.Dot? ==> r.index < |locs| && locs[r.index].region == p.region
    ensures r.Throws? ==> p.id < 0
  {
    var slots := Slots(locs, p.region);
    if |slots| == 0 then Unplaced
    else
      assert locs[slots[0]].region == p.region;
      var k := Numbers.JsRem(p.id, |slots|);
      if k < 0 then Throws else Dot(slots[k])
  }

  /** A negative id throws exactly when it is not a multiple of the number
      of dots; a multiple gives `-0`, which reads the first dot. */
  lemma PlaceNegative(locs: seq<Location>, p: MapProject)
    requires p.id < 0 && |Slots(locs, p.region)| > 0
    ensures (-p.id) % |Slots(locs, p.region)| != 0 ==> Place(locs, p) == Throws
    ensures (-p.id) % |Slots(locs, p.region)| == 0 ==> Place(locs, p) == Dot(Slots(locs, p.region)[0])
  {
  }

  /** A non-negative id always lands on a dot of a known region, spread
      round-robin over its dots. */
  lemma PlaceNonNegative(locs: seq<Location>, p: MapProject)
    requires p.id >= 0 && |Slots(locs, p.region)| > 0
    ensures Place(locs, p) == Dot(Slots(locs, p.region)[p.id % |Slots(locs, p.region)|])
  {
  }

  /** The projects of dot `j`, in input order. */
  function AtDot(locs: seq<Location>, ps: seq<MapProject>, j: nat): seq<MapProject> {
    Seqs.Filter(ps, (p: MapProject) => Place(locs, p) == Dot(j))
  }

  function Placed(locs: seq<Location>, ps: seq<MapProject>): seq<MapProject> {
    Seqs.Filter(ps, (p: MapProject) => Place(locs, p).Dot?)
  }

  /** The `forEach`/`push` loop: one bucket per dot, or `None` when a
      `push` throws. */
  function Distribute(locs: seq<Location>, ps: seq<MapProject>): (r: Option<seq<seq<MapProject>>>)
    ensures r.Some? ==> |r.value| == |locs|
    decreases |ps|
  {
    if |ps| == 0 then Some(seq(|locs|, _ => []))
    else
      match Distribute(locs, ps[..|ps| - 1])
      case None => None
      case Some(b) => Drop(b, Place(locs, ps[|ps| - 1]), ps[|ps| - 1])
  }

  /** One `push`: the project joins the bucket it is placed in. */
  function Drop(b: seq<seq<MapProject>>, pl: Placement, p: MapProject): (r: Option<seq<seq<MapProject>>>)
    requires pl.Dot? ==> pl.index < |b|
    ensures r.None? <==> pl.Throws?
    ensures r.Some? ==> |r.value| == |b|
  {
    match pl
    case Unplaced => Some(b)
    case Throws => None
    case Dot(j) => Some(b[j := b[j] + [p]])
  }

  /** Distributing one more project is one more `push`. */
  lemma DistributeSnoc(locs: seq<Location>, init: seq<MapProject>, p: MapProject)
    ensures Distribute(locs, init + [p]) ==
      match Distribute(locs, init)
      case None => None
      case Some(b) => Drop(b, Place(locs, p), p)
  {
    assert (init + [p])[..|init|] == init;
  }

  /** The rendering fails exactly when some project's `push` throws. */
  lemma {:induction false} DistributeThrows(locs: seq<Location>, ps: seq<MapProject>)
    ensures Distribute(locs, ps).None? <==> exists i :: 0 <= i < |ps| && Place(locs, ps[i]).Throws?
    decreases |ps|
  {
    if |ps| > 0 {
      var init := ps[..|ps| - 1];
      var p := ps[|ps| - 1];
      assert ps == init + [p];
      DistributeSnoc(locs, init, p);
      DistributeThrows(locs, init);
      assert forall i :: 0 <= i < |init| ==> init[i] == ps[i];
      if Distribute(locs, init).None? {
        var i :| 0 <= i < |init| && Place(locs, init[i]).Throws?;
        assert Place(locs, ps[i]).Throws?;
      }
    }
  }

  /** Each dot holds exactly the projects placed on it, in input order. */
  lemma {:induction false} DistributeBuckets(locs: seq<Location>, ps: seq<MapProject>, j: nat)
    requires Distribute(locs, ps).Some? && j < |locs|
    ensures Distribute(locs, ps).value[j] == AtDot(locs, ps, j)
    decreases |ps|
  {
    if |ps| > 0 {
      var init := ps[..|ps| - 1];
      var p := ps[|ps| - 1];
      assert ps == init + [p];
      DistributeSnoc(locs, init, p);
      var b := Distribute(locs, init).value;
      var pl := Place(locs, p);
      DistributeBuckets(locs, init, j);
      var f := (q: MapProject) => Place(locs, q) == Dot(j);
      Seqs.FilterAppend(init, [p], f);
      assert Seqs.Filter([p], f) == if pl == Dot(j) then [p] else [];
      DropAt(b, pl, p, j);
    }
  }

  lemma DropAt(b: seq<seq<MapProject>>, pl: Placement, p: MapProject, j: nat)
    requires pl.Dot? ==> pl.index < |b|
    requires !pl.Throws? && j < |b|
    ensures Drop(b, pl, p).value[j] == if pl == Dot(j) then b[j] + [p] else b[j]
  {
  }

  /** Every project of a dot is an input project of the dot's region. */
  lemma DotRegion(locs: seq<Location>, ps: seq<MapProject>, j: nat, p: MapProject)
    requires Distribute(locs, ps).Some? && j < |locs|
    requires p in Distribute(locs, ps).value[j]
    ensures p in ps && p.region == locs[j].region
  {
    DistributeBuckets(locs, ps, j);
    Seqs.FilterMembership(ps, (q: MapProject) => Place(locs, q) == Dot(j), p);
  }

  /** Sum of bucket sizes from bucket `i` on. */
  function TotalFrom(b: seq<seq<MapProject>>, i: nat): nat
    requires i <= |b|
    decreases |b| - i
  {
    if i == |b| then 0 else |b[i]| + TotalFrom(b, i + 1)
  }

  lemma {:induction false} TotalUpdate(b: seq<seq<MapProject>>, i: nat, k: nat, x: seq<MapProject>)
    requires i <= |b| && k < |b|
    ensures i <= k ==> TotalFrom(b[k := x], i) == TotalFrom(b, i) - |b[k]| + |x|
    ensures k < i ==> TotalFrom(b[k := x], i) == TotalFrom(b, i)
    decreases |b| - i
  {
    if i < |b| {
      TotalUpdate(b, i + 1, k, x);
    }
  }

  lemma {:induction false} TotalEmpty(b: seq<seq<MapProject>>, i: nat)
    requires i <= |b|
    requires forall k :: 0 <= k < |b| ==> b[k] == []
    ensures TotalFrom(b, i) == 0
    decreases |b| - i
  {
    if i < |b| {
      TotalEmpty(b, i + 1);
    }
  }

  /** No project is lost or duplicated: the dots hold, together, exactly
      as many projects as have a region on the map. */
  lemma {:induction false} DistributeTotal(locs: seq<Location>, ps: seq<MapProject>)
    requires Distribute(locs, ps).Some?
    ensures TotalFrom(Distribute(locs, ps).value, 0) == |Placed(locs, ps)|
    decreases |ps|
  {
    if |ps| == 0 {
      TotalEmpty(Distribute(locs, ps).value, 0);
    } else {
      var init := ps[..|ps| - 1];
      var p := ps[|ps| - 1];
      assert ps == init + [p];
      DistributeSnoc(locs, init, p);
      DistributeTotal(locs, init);
      var pl := Place(locs, p);
      Seqs.FilterAppend(init, [p], (q: MapProject) => Place(locs, q).Dot?);
      var b := Distribute(locs, init).value;
      if pl.Dot? {
        TotalUpdate(b, 0, pl.index, b[pl.index] + [p]);
      }
    }
  }

  // ---------------------------------------------------------------------
  // Dots
  // ---------------------------------------------------------------------

  /** `sdgColors[parseInt(sdg.match(/\d+/)?.[0] || "1") - 1] || fallback`. */
  function DotColor(sdg: string): (c: string) {
    match GoalNumber(sdg)
    case None => FallbackColor
    case Some(k) => Palette.ColorAt(k - 1, FallbackColor)
  }

  /** `parseInt(sdg.match(/\d+/)?.[0] || "1")`: the parsed first digit
      run, or goal 1 (the value of `parseInt("1")`) when there is none. */
  function GoalNumber(sdg: string): Option<int> {
    match Numbers.FirstDigitRun(sdg)
    case Some(d) => Numbers.ParseInt(d)
    case None => Some(1)
  }

  /** The goal number is the value of the first digit run. */
  lemma GoalNumberOf(sdg: string, d: string)
    requires Numbers.FirstDigitRun(sdg) == Some(d)
    ensures GoalNumber(sdg) == Some(Numbers.DigitsValue(d) as int)
  {
    DigitRunParses(d);
  }

  /** The dot takes the colour of its goal number. */
  lemma ColorOfGoal(sdg: string, k: int)
    requires GoalNumber(sdg) == Some(k)
    ensures DotColor(sdg) == Palette.ColorAt(k - 1, FallbackColor)
  {
  }

  lemma DigitRunParses(d: string)
    requires |d| > 0 && Numbers.AllDigits(d)
    ensures Numbers.ParseInt(d) == Some(Numbers.DigitsValue(d))
  {
    Numbers.DigitsEndAt(d, 0, |d|);
    assert d[..|d|] == d;
    Numbers.ParseLeadingDigits(d);
  }

  /** `SDG n...` is drawn in the colour of goal `n`. */
  lemma DotColorGoal(p: string, n: nat, rest: string)
    requires forall k :: 0 <= k < |p| ==> !IsAsciiDigit(p[k])
    requires |rest| == 0 || !IsAsciiDigit(rest[0])
    ensures DotColor(p + Numbers.Decimal(n) + rest) == Palette.ColorAt(n - 1, FallbackColor)
  {
    GoalNumberAfter(p, n, rest);
    ColorOfGoal(p + Numbers.Decimal(n) + rest, n);
  }

  lemma GoalNumberAfter(p: string, n: nat, rest: string)
    requires forall k :: 0 <= k < |p| ==> !IsAsciiDigit(p[k])
    requires |rest| == 0 || !IsAsciiDigit(rest[0])
    ensures GoalNumber(p + Numbers.Decimal(n) + rest) == Some(n as int)
  {
    Numbers.FirstDigitRunAfter(p, n, rest);
    GoalNumberOf(p + Numbers.Decimal(n) + rest, Numbers.Decimal(n));
    Numbers.DecimalValue(n);
  }

  /** A goal without a number is drawn in the colour of goal 1. */
  lemma DotColorDefault(sdg: string)
    requires forall k :: 0 <= k < |sdg| ==> !IsAsciiDigit(sdg[k])
    ensures DotColor(sdg) == Palette.SdgColors[0]
  {
  }

  /** A drawn dot: where, how many projects, which colour. */
  datatype MapDot = MapDot(location: Location, count: nat, color: string)

  /** The non-empty dots from index `j` on, in drawing order. */
  function DotsFrom(locs: seq<Location>, b: seq<seq<MapProject>>, j: nat, color: string -> string): (r: seq<MapDot>)
    requires |b| == |locs| && j <= |b|
    ensures forall k :: 0 <= k < |r| ==> r[k].count > 0
    ensures |r| <= |b| - j
    decreases |b| - j
  {
    if j == |b| then []
    else
      (if |b[j]| > 0 then [MapDot(locs[j], |b[j]|, color(b[j][0].sdg))] else [])
      + DotsFrom(locs, b, j + 1, color)
  }

  /** Every location holding projects gets its dot, with its count and
      the colour of its first project. */
  lemma {:induction false} DotsShown(locs: seq<Location>, b: seq<seq<MapProject>>, j: nat, color: string -> string, i: nat)
    requires |b| == |locs| && j <= i < |b| && |b[i]| > 0
    ensures MapDot(locs[i], |b[i]|, color(b[i][0].sdg)) in DotsFrom(locs, b, j, color)
    decreases i - j
  {
    if j < i {
      DotsShown(locs, b, j + 1, color, i);
    }
  }

  function SumCounts(ds: seq<MapDot>): nat
    decreases |ds|
  {
    if |ds| == 0 then 0 else ds[0].count + SumCounts(ds[1..])
  }

  lemma {:induction false} SumCountsAppend(a: seq<MapDot>, c: seq<MapDot>)
    ensures SumCounts(a + c) == SumCounts(a) + SumCounts(c)
    decreases |a|
  {
    if |a| == 0 {
      assert a + c == c;
    } else {
      assert (a + c)[1..] == a[1..] + c;
      SumCountsAppend(a[1..], c);
    }
  }

  /** Skipping the empty dots loses no project: the drawn counts add up to
      the bucket sizes. */
  lemma {:induction false} DotsTotal(locs: seq<Location>, b: seq<seq<MapProject>>, j: nat, color: string -> string)
    requires |b| == |locs| && j <= |b|
    ensures SumCounts(DotsFrom(locs, b, j, color)) == TotalFrom(b, j)
    decreases |b| - j
  {
    if j < |b| {
      DotsTotal(locs, b, j + 1, color);
      var head := if |b[j]| > 0 then [MapDot(locs[j], |b[j]|, color(b[j][0].sdg))] else [];
      SumCountsAppend(head, DotsFrom(locs, b, j + 1, color));
    }
  }

  /** The map as drawn from the static dots: `None` when the distribution
      throws. */
  function Render(ps: seq<MapProject>): (r: Option<seq<MapDot>>)
    ensures r.Some? ==> SumCounts(r.value) == |Placed(Locations, ps)|
    ensures r.None? <==> exists i :: 0 <= i < |ps| && Place(Locations, ps[i]).Throws?
  {
    DistributeThrows(Locations, ps);
    match Distribute(Locations, ps)
    case None => None
    case Some(b) =>
      DotsTotal(Locations, b, 0, DotColor);
      DistributeTotal(Locations, ps);
      Some(DotsFrom(Locations, b, 0, DotColor))
  }

  // ---------------------------------------------------------------------
  // Hover card
  // ---------------------------------------------------------------------

  /** `sdg.split(" ").slice(0, 2).join(" ")`: the first two words. */
  function ShortSdg(sdg: string): string {
    Join(Seqs.Take(SplitOn(sdg, " "), 2), " ")
  }

  /** The short label is a prefix of the goal, and the whole goal when it
      has at most one space; otherwise the goal is the label, a space and
      the remaining words. */
  lemma ShortSdgPrefix(sdg: string)
    ensures ShortSdg(sdg) <= sdg
    ensures |SplitOn(sdg, " ")| <= 2 ==> ShortSdg(sdg) == sdg
    ensures |SplitOn(sdg, " ")| > 2 ==> ShortSdg(sdg) + " " + Join(SplitOn(sdg, " ")[2..], " ") == sdg
  {
    var parts := SplitOn(sdg, " ");
    JoinSplit(sdg, " ");
    if |parts| > 2 {
      assert parts == parts[..2] + parts[2..];
      JoinAppend(parts[..2], parts[2..], " ");
    }
  }

  datatype HoverRow = HoverRow(name: string, sdg: string, status: string)

  datatype Hover = Hover(header: string, rows: seq<HoverRow>, more: Option<nat>)

  /** `${region} – ${n} Projects`. */
  function Header(region: string, n: nat): (h: string)
    ensures StartsWith(h, region) && EndsWith(h, " Projects")
  {
    region + " \U{2013} " + Numbers.Decimal(n) + " Projects"
  }

  /** The count in the header reads back as the number of projects. */
  lemma HeaderCount(region: string, n: nat)
    ensures Numbers.ParseInt(Header(region, n)[|region| + 3..]) == Some(n)
  {
    assert Header(region, n)[|region| + 3..] == Numbers.Decimal(n) + " Projects";
    Numbers.ParseDecimal(n, " Projects");
  }

  /** The card of a hovered dot: the first five projects with their short
      goal labels, and the number of the others. */
  function HoverCard(loc: Location, ps: seq<MapProject>): (h: Hover)
    ensures |h.rows| == Seqs.Min(HoverLimit, |ps|)
    ensures forall i :: 0 <= i < |h.rows| ==> h.rows[i].name == ps[i].name && h.rows[i].status == ps[i].status
    ensures forall i :: 0 <= i < |h.rows| ==> h.rows[i].sdg <= ps[i].sdg
    ensures h.more.Some? <==> |ps| > HoverLimit
    ensures |h.rows| + h.more.GetOr(0) == |ps|
  {
    var shown := Seqs.Take(ps, HoverLimit);
    var rows := seq(|shown|, i requires 0 <= i < |shown| =>
      HoverRow(shown[i].name, ShortSdg(shown[i].sdg), shown[i].status));
    forall i | 0 <= i < |rows|
      ensures rows[i].sdg <= ps[i].sdg
    {
      ShortSdgPrefix(ps[i].sdg);
    }
    Hover(Header(loc.region, |ps|), rows,
      if |ps| > HoverLimit then Some(|ps| - HoverLimit) else None)
  }
}
