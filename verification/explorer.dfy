/** The project table: a Fisher-Yates shuffle done once, an order-keeping
    refresh when the project list changes, and ten-per-page pagination with
    its page links, ellipses and footer. */
module Explorer {
  import opened Wrappers
  import Seqs
  import Dashboard

  type Project = Dashboard.Project

  // ---------------------------------------------------------------------
  // Shuffle

  /** The swap positions a run of the shuffle draws: `picks[i]` is
      `Math.floor(Math.random() * (i + 1))`, so it lies in `0..i`. */
  predicate ValidPicks(picks: seq<nat>, n: nat) {
    |picks| == n && forall i :: 0 <= i < n ==> picks[i] <= i
  }

  /** `shuffleArray`: for `i` from the last index down to 1, swap entries
      `i` and `picks[i]`. */
  method Shuffle<T>(a: seq<T>, picks: seq<nat>) returns (r: seq<T>)
    requires ValidPicks(picks, |a|)
    ensures |r| == |a|
    ensures multiset(r) == multiset(a)
    ensures (forall i :: 0 <= i < |a| ==> picks[i] == i) ==> r == a
  {
    r := a;
    if |a| == 0 {
      return;
    }
    var i := |a| - 1;
    while i > 0
      invariant 0 <= i < |a|
      invariant |r| == |a|
      invariant multiset(r) == multiset(a)
      invariant (forall k :: 0 <= k < |a| ==> picks[k] == k) ==> r == a
      decreases i
    {
      r := Swap(r, i, picks[i]);
      i := i - 1;
    }
  }

  /** `[array[i], array[j]] = [array[j], array[i]]`. */
  function Swap<T>(s: seq<T>, i: nat, j: nat): (r: seq<T>)
    requires i < |s| && j < |s|
    ensures |r| == |s| && multiset(r) == multiset(s)
    ensures r[i] == s[j] && r[j] == s[i]
    ensures forall k :: 0 <= k < |s| && k != i && k != j ==> r[k] == s[k]
  {
    s[i := s[j]][j := s[i]]
  }

  // ---------------------------------------------------------------------
  // Refresh when the project list changes

  function Ids(ps: seq<Project>): (ids: seq<string>)
    ensures |ids| == |ps|
    ensures forall i :: 0 <= i < |ps| ==> ids[i] == ps[i].id
  {
    seq(|ps|, i requires 0 <= i < |ps| => ps[i].id)
  }

  /** `projects.find(p => p.id === id)`: the first project with that id. */
  function FindById(ps: seq<Project>, id: string): (o: Option<Project>)
    ensures o.Some? ==> o.value in ps && o.value.id == id
    ensures o.None? <==> id !in Ids(ps)
    decreases |ps|
  {
    if |ps| == 0 then None
    else if ps[0].id == id then Some(ps[0])
    else
      var o := FindById(ps[1..], id);
      assert forall k :: 0 <= k < |ps| - 1 ==> Ids(ps[1..])[k] == Ids(ps)[k + 1];
      assert id in Ids(ps[1..]) ==> id in Ids(ps);
      o
  }

  /** The held ids looked up in the new list, in held order, with the ids
      that are gone dropped (`.filter(Boolean)`). */
  function Kept(ids: seq<string>, ps: seq<Project>): (r: seq<Project>)
    ensures forall i :: 0 <= i < |r| ==> r[i] in ps
    decreases |ids|
  {
    if |ids| == 0 then []
    else match FindById(ps, ids[0])
      case Some(p) => [p] + Kept(ids[1..], ps)
      case None => Kept(ids[1..], ps)
  }

  /** The projects whose id was not held, in their list order. */
  function Added(ids: seq<string>, ps: seq<Project>): seq<Project> {
    Seqs.Filter(ps, (p: Project) => p.id !in ids)
  }

  /** The effect on `[projects]`: the first list is shuffled; afterwards
      the held order is kept and new projects go at the end. */
  method Refresh(held: seq<Project>, ps: seq<Project>, picks: seq<nat>) returns (r: seq<Project>)
    requires |held| == 0 ==> ValidPicks(picks, |ps|)
    ensures |held| == 0 ==> multiset(r) == multiset(ps)
    ensures |held| > 0 ==> r == Kept(Ids(held), ps) + Added(Ids(held), ps)
  {
    if |held| == 0 {
      r := Shuffle(ps, picks);
    } else {
      r := Kept(Ids(held), ps) + Added(Ids(held), ps);
    }
  }

  /** Surviving projects keep their held relative order. */
  lemma {:induction false} KeptOrder(ids: seq<string>, ps: seq<Project>)
    ensures Ids(Kept(ids, ps)) == Seqs.Filter(ids, (id: string) => id in Ids(ps))
    decreases |ids|
  {
    if |ids| > 0 {
      KeptOrder(ids[1..], ps);
      var rest := Kept(ids[1..], ps);
      match FindById(ps, ids[0])
      case Some(p) =>
        assert Ids([p] + rest) == [p.id] + Ids(rest);
      case None =>
    }
  }

  lemma {:induction false} KeptIds(ids: seq<string>, ps: seq<Project>, x: Project)
    requires x in Kept(ids, ps)
    ensures x.id in ids
    decreases |ids|
  {
    if |ids| > 0 {
      match FindById(ps, ids[0])
      case Some(p) =>
        if x != p {
          KeptIds(ids[1..], ps, x);
        }
      case None =>
        KeptIds(ids[1..], ps, x);
    }
  }

  /** With unique ids, a project whose id is held is kept. */
  lemma {:induction false} KeptComplete(ids: seq<string>, ps: seq<Project>, x: Project)
    requires Seqs.Distinct(Ids(ps))
    requires x in ps && x.id in ids
    ensures x in Kept(ids, ps)
    decreases |ids|
  {
    if ids[0] == x.id {
      FindUnique(ps, x);
    } else {
      KeptComplete(ids[1..], ps, x);
    }
  }

  lemma FindUnique(ps: seq<Project>, x: Project)
    requires Seqs.Distinct(Ids(ps))
    requires x in ps
    ensures FindById(ps, x.id) == Some(x)
  {
    var o := FindById(ps, x.id);
    var i :| 0 <= i < |ps| && ps[i] == x;
    var j :| 0 <= j < |ps| && ps[j] == o.value;
    assert Ids(ps)[i] == Ids(ps)[j];
  }

  lemma {:induction false} KeptDistinct(ids: seq<string>, ps: seq<Project>)
    requires Seqs.Distinct(ids)
    ensures Seqs.Distinct(Ids(Kept(ids, ps)))
    decreases |ids|
  {
    if |ids| > 0 {
      KeptDistinct(ids[1..], ps);
      match FindById(ps, ids[0])
      case Some(p) =>
        var rest := Kept(ids[1..], ps);
        forall k | 0 <= k < |rest|
          ensures rest[k].id != p.id
        {
          KeptIds(ids[1..], ps, rest[k]);
        }
        assert Ids([p] + rest) == [p.id] + Ids(rest);
      case None =>
    }
  }

  /** With unique ids on both sides, a refresh after the first is a
      permutation of the new list: nothing lost, nothing duplicated. */
  lemma RefreshPermutes(held: seq<Project>, ps: seq<Project>)
    requires Seqs.Distinct(Ids(held)) && Seqs.Distinct(Ids(ps))
    ensures multiset(Kept(Ids(held), ps) + Added(Ids(held), ps)) == multiset(ps)
  {
    var r := Kept(Ids(held), ps) + Added(Ids(held), ps);
    forall x
      ensures x in r <==> x in ps
    {
      RefreshMember(Ids(held), ps, x);
    }
    RefreshDistinct(Ids(held), ps);
    DistinctIds(ps);
    Seqs.SameElementsPermutation(r, ps);
  }

  /** A project is refreshed in exactly when it is in the new list. */
  lemma RefreshMember(ids: seq<string>, ps: seq<Project>, x: Project)
    requires Seqs.Distinct(Ids(ps))
    ensures x in Kept(ids, ps) + Added(ids, ps) <==> x in ps
  {
    Seqs.FilterMembership(ps, (q: Project) => q.id !in ids, x);
    if x in ps && x.id in ids {
      KeptComplete(ids, ps, x);
    }
  }

  /** No project is refreshed in twice. */
  lemma RefreshDistinct(ids: seq<string>, ps: seq<Project>)
    requires Seqs.Distinct(ids) && Seqs.Distinct(Ids(ps))
    ensures Seqs.Distinct(Kept(ids, ps) + Added(ids, ps))
  {
    var k := Kept(ids, ps);
    var n := Added(ids, ps);
    var r := k + n;
    KeptDistinct(ids, ps);
    forall a, b | 0 <= a < b < |r|
      ensures r[a] != r[b]
    {
      if b < |k| {
        assert Ids(k)[a] != Ids(k)[b];
      } else if a < |k| {
        KeptIds(ids, ps, r[a]);
        AddedNotHeld(ids, ps, b - |k|);
      } else {
        AddedDistinct(ids, ps, a - |k|, b - |k|);
      }
    }
  }

  lemma AddedNotHeld(ids: seq<string>, ps: seq<Project>, i: nat)
    requires i < |Added(ids, ps)|
    ensures Added(ids, ps)[i].id !in ids
  {
    var n := Added(ids, ps);
    Seqs.FilterMembership(ps, (q: Project) => q.id !in ids, n[i]);
  }

  lemma AddedDistinct(ids: seq<string>, ps: seq<Project>, a: nat, b: nat)
    requires Seqs.Distinct(Ids(ps))
    requires a < b < |Added(ids, ps)|
    ensures Added(ids, ps)[a] != Added(ids, ps)[b]
  {
    var n := Added(ids, ps);
    var p := (q: Project) => q.id !in ids;
    assert Seqs.Filter(ps, p) == n;
    DistinctIds(ps);
    Seqs.FilterDistinct(ps, p);
  }

  /** Projects with distinct ids are themselves distinct. */
  lemma DistinctIds(ps: seq<Project>)
    requires Seqs.Distinct(Ids(ps))
    ensures Seqs.Distinct(ps)
  {
    forall a, b | 0 <= a < b < |ps|
      ensures ps[a] != ps[b]
    {
      assert Ids(ps)[a] != Ids(ps)[b];
    }
  }

  // ---------------------------------------------------------------------
  // Pagination

  const PageSize := 10

  /** `Math.ceil(length / itemsPerPage)`. */
  function TotalPages(n: nat): (t: nat)
    ensures t * PageSize >= n && (t == 0 || (t - 1) * PageSize < n)
  {
    (n + PageSize - 1) / PageSize
  }

  /** `slice(first, last)` with non-negative bounds: both clamped to the
      length. */
  function Slice<T>(s: seq<T>, first: nat, last: nat): (r: seq<T>)
    ensures first <= last <= |s| ==> r == s[first..last]
    ensures |s| <= first ==> r == []
  {
    var hi := if last < |s| then last else |s|;
    var lo := if first < hi then first else hi;
    s[lo..hi]
  }

  /** The rows on page `page` (1-based). */
  function PageItems<T>(s: seq<T>, page: nat): (r: seq<T>)
    requires page >= 1
    ensures |r| <= PageSize
    ensures 1 <= page <= TotalPages(|s|) ==> |r| > 0
    ensures page > TotalPages(|s|) ==> r == []
  {
    Slice(s, (page - 1) * PageSize, page * PageSize)
  }

  /** The pages in order, `1..count`. */
  function Pages<T>(s: seq<T>, count: nat): seq<T>
    decreases count
  {
    if count == 0 then [] else Pages(s, count - 1) + PageItems(s, count)
  }

  /** Reading the pages in order gives back every row exactly once. */
  lemma {:induction false} PagesCover<T>(s: seq<T>)
    ensures Pages(s, TotalPages(|s|)) == s
  {
    PagesPrefix(s, TotalPages(|s|));
  }

  lemma {:induction false} PagesPrefix<T>(s: seq<T>, count: nat)
    requires count <= TotalPages(|s|)
    ensures Pages(s, count) == s[..if count * PageSize < |s| then count * PageSize else |s|]
    decreases count
  {
    if count > 0 {
      PagesPrefix(s, count - 1);
    }
  }

  /** "Showing first-last of n". */
  datatype Footer = Footer(first: int, last: int, total: nat)

  /** The footer under page `page` of `n` rows: the page's first row
      counted from one, its last row, and the row count. */
  function ShowingFooter(n: nat, page: nat): (f: Footer)
    requires page >= 1
    ensures 1 <= page <= TotalPages(n) ==> f.last - f.first + 1 == |PageItems(seq(n, i => i), page)|
    ensures 1 <= page <= TotalPages(n) ==> 1 <= f.first <= f.last <= n
    ensures f.first == (page - 1) * PageSize + 1 && f.last == Seqs.Min(page * PageSize, n)
    ensures f.total == n
  {
    Footer((page - 1) * PageSize + 1, Seqs.Min(page * PageSize, n), n)
  }

  /** The footer names exactly the rows the page shows: rows `first` to
      `last`, counted from one. */
  lemma FooterShowsPage<T>(rows: seq<T>, page: nat)
    requires 1 <= page <= TotalPages(|rows|)
    ensures var f := ShowingFooter(|rows|, page);
      1 <= f.first <= f.last <= |rows| && PageItems(rows, page) == rows[f.first - 1..f.last]
  {
    var f := ShowingFooter(|rows|, page);
    assert (page - 1) * PageSize < |rows|;
    assert PageItems(rows, page) == Slice(rows, (page - 1) * PageSize, page * PageSize);
  }

  /** The Previous and Next controls. */
  function Prev(page: nat): (p: nat)
    requires page >= 1
    ensures p >= 1 && (page > 1 ==> p == page - 1) && (page == 1 ==> p == 1)
  {
    if page > 1 then page - 1 else page
  }

  function Next(page: nat, total: nat): (p: nat)
    requires page >= 1
    ensures p >= page && (page < total ==> p == page + 1) && (page >= total ==> p == page)
  {
    if page < total then page + 1 else page
  }

  /** Starting from a page in range, the controls never leave `1..total`. */
  lemma NavigationInRange(page: nat, total: nat)
    requires 1 <= page <= total
    ensures 1 <= Prev(page) <= total && 1 <= Next(page, total) <= total
  {
  }

  /** The controls render only when there is more than one page. */
  predicate ShowsPagination(n: nat) {
    TotalPages(n) > 1
  }

  datatype PageControl = Link | Ellipsis | Blank

  predicate Shown(k: int, current: int, total: int) {
    k <= 5 || k > total - 2 || -1 <= current - k <= 1
  }

  /** What sits at page number `k`, as written: a link for the first five,
      the last two and the neighbours of the current page, otherwise an
      ellipsis at page 6 and at page `total - 3` when there are more than
      ten pages. */
  function ControlAsWritten(k: int, current: int, total: int): (c: PageControl)
    ensures c == Link <==> Shown(k, current, total)
    ensures c == Ellipsis <==> !Shown(k, current, total) && total > 10 && (k == 6 || k == total - 3)
    ensures c == Blank <==> !Shown(k, current, total) && (total <= 10 || (k != 6 && k != total - 3))
  {
    if Shown(k, current, total) then Link
    else if (k == 6 && total > 10) || (k == total - 3 && total > 10) then Ellipsis
    else Blank
  }

  /** The current, first and last pages always have links; with at most
      seven pages every page does. */
  lemma LinksPresent(current: nat, total: nat)
    requires 1 <= current <= total
    ensures ControlAsWritten(current, current, total) == Link
    ensures ControlAsWritten(1, current, total) == Link
    ensures ControlAsWritten(total, current, total) == Link
    ensures total <= 7 ==> forall k :: 1 <= k <= total ==> ControlAsWritten(k, current, total) == Link
  {
  }

  /** A gap with no ellipsis: twelve pages, page 8 current: pages 9 and 11
      are links and page 10 between them is blank. */
  lemma UnmarkedGap()
    ensures ControlAsWritten(9, 8, 12) == Link
    ensures ControlAsWritten(10, 8, 12) == Blank
    ensures ControlAsWritten(11, 8, 12) == Link
  {
  }

  /** Two ellipses in one gap: eleven pages, page 1 current: 6 and 8 are
      ellipses, 7 is blank, and no link lies between them. */
  lemma DoubleEllipsis()
    ensures ControlAsWritten(6, 1, 11) == Ellipsis
    ensures ControlAsWritten(7, 1, 11) == Blank
    ensures ControlAsWritten(8, 1, 11) == Ellipsis
  {
  }

  /** The same links, and one ellipsis at the start of every run of
      hidden pages. */
  function ControlAt(k: int, current: int, total: int): (c: PageControl)
    ensures c == Link <==> Shown(k, current, total)
    ensures c == Ellipsis <==> !Shown(k, current, total) && Shown(k - 1, current, total)
  {
    if Shown(k, current, total) then Link
    else if Shown(k - 1, current, total) then Ellipsis
    else Blank
  }

  /** Pages `j..k` are all hidden. */
  predicate HiddenRun(j: int, k: int, current: int, total: int) {
    forall m :: j <= m <= k ==> !Shown(m, current, total)
  }

  /** Every hidden page lies in a run of hidden pages that starts with an
      ellipsis, and two ellipses always have a link between them. */
  lemma {:induction false} GapsMarked(k: int, current: int, total: int)
    requires 1 <= k && !Shown(k, current, total)
    ensures exists j :: 1 <= j <= k && ControlAt(j, current, total) == Ellipsis && HiddenRun(j, k, current, total)
    decreases k
  {
    if Shown(k - 1, current, total) {
      assert ControlAt(k, current, total) == Ellipsis;
    } else {
      GapsMarked(k - 1, current, total);
    }
  }

  lemma EllipsesSeparated(a: int, b: int, current: int, total: int)
    requires a < b
    requires ControlAt(a, current, total) == Ellipsis && ControlAt(b, current, total) == Ellipsis
    ensures exists m :: a < m < b && ControlAt(m, current, total) == Link
  {
    assert ControlAt(b - 1, current, total) == Link;
  }

  /** At most five tools per row (`relevantTools.slice(0, 5)`). */
  function ShownTools(tools: seq<string>): (r: seq<string>)
    ensures |r| <= 5 && r <= tools
    ensures |tools| <= 5 ==> r == tools
  {
    Seqs.Take(tools, 5)
  }
}
