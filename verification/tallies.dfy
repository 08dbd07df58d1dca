/** Grouped counting as the dashboard writes it with `reduce`: walk the
    events in order; the first event of a key pushes a new entry carrying
    that event's weight and payload; every later event of the same key adds
    its weight to that entry (`acc.find(...)` then `existing.count++`). */
module Tallies {
  import opened Wrappers
  import Seqs

  datatype Event<K, P> = Event(key: K, weight: int, info: P)
  datatype Entry<K, P> = Entry(key: K, total: int, info: P)

  function Keys<K, P>(r: seq<Entry<K, P>>): (ks: seq<K>)
    ensures |ks| == |r|
    ensures forall i :: 0 <= i < |r| ==> ks[i] == r[i].key
  {
    seq(|r|, i requires 0 <= i < |r| => r[i].key)
  }

  function EventKeys<K, P>(evs: seq<Event<K, P>>): (ks: seq<K>)
    ensures |ks| == |evs|
    ensures forall i :: 0 <= i < |evs| ==> ks[i] == evs[i].key
  {
    seq(|evs|, i requires 0 <= i < |evs| => evs[i].key)
  }

  /** `acc.find(e => e.key === k)`, as an index. */
  function IndexOfKey<K(==), P>(r: seq<Entry<K, P>>, k: K): (o: Option<nat>)
    ensures o.Some? ==> o.value < |r| && r[o.value].key == k
    ensures o.Some? ==> forall j :: 0 <= j < o.value ==> r[j].key != k
    ensures o.None? ==> forall j :: 0 <= j < |r| ==> r[j].key != k
    decreases |r|
  {
    if |r| == 0 then None
    else if r[0].key == k then Some(0)
    else match IndexOfKey(r[1..], k)
      case None => None
      case Some(i) => Some(i + 1)
  }

  /** One step of the `reduce`. */
  function Bump<K(==), P>(acc: seq<Entry<K, P>>, e: Event<K, P>): seq<Entry<K, P>> {
    match IndexOfKey(acc, e.key)
    case Some(i) => acc[i := acc[i].(total := acc[i].total + e.weight)]
    case None => acc + [Entry(e.key, e.weight, e.info)]
  }

  function Tally<K(==), P>(evs: seq<Event<K, P>>): seq<Entry<K, P>>
    decreases |evs|
  {
    if |evs| == 0 then [] else Bump(Tally(evs[..|evs| - 1]), evs[|evs| - 1])
  }

  /** Sum of the weights of the events with key `k`. */
  function SumFor<K(==), P>(evs: seq<Event<K, P>>, k: K): int
    decreases |evs|
  {
    if |evs| == 0 then 0
    else SumFor(evs[..|evs| - 1], k) + (if evs[|evs| - 1].key == k then evs[|evs| - 1].weight else 0)
  }

  function SumWeights<K, P>(evs: seq<Event<K, P>>): int
    decreases |evs|
  {
    if |evs| == 0 then 0 else SumWeights(evs[..|evs| - 1]) + evs[|evs| - 1].weight
  }

  /** Payload of the earliest event with key `k`. */
  function FirstInfo<K(==), P>(evs: seq<Event<K, P>>, k: K): Option<P>
    decreases |evs|
  {
    if |evs| == 0 then None
    else match FirstInfo(evs[..|evs| - 1], k)
      case Some(p) => Some(p)
      case None => if evs[|evs| - 1].key == k then Some(evs[|evs| - 1].info) else None
  }

  function TotalOf<K(==), P>(r: seq<Entry<K, P>>, k: K): int {
    match IndexOfKey(r, k)
    case Some(i) => r[i].total
    case None => 0
  }

  function InfoOf<K(==), P>(r: seq<Entry<K, P>>, k: K): Option<P> {
    match IndexOfKey(r, k)
    case Some(i) => Some(r[i].info)
    case None => None
  }

  function SumTotals<K, P>(r: seq<Entry<K, P>>): int
    decreases |r|
  {
    if |r| == 0 then 0 else SumTotals(r[..|r| - 1]) + r[|r| - 1].total
  }

  lemma IndexOfDistinct<K, P>(r: seq<Entry<K, P>>, i: nat)
    requires Seqs.Distinct(Keys(r))
    requires i < |r|
    ensures IndexOfKey(r, r[i].key) == Some(i)
  {
    var k := r[i].key;
    var ks := Keys(r);
    forall a | 0 <= a < i
      ensures r[a].key != k
    {
      assert ks[a] != ks[i];
    }
    IndexOfFirst(r, i);
  }

  /** The index found is the first one carrying the key. */
  lemma {:induction false} IndexOfFirst<K, P>(r: seq<Entry<K, P>>, i: nat)
    requires i < |r|
    requires forall a :: 0 <= a < i ==> r[a].key != r[i].key
    ensures IndexOfKey(r, r[i].key) == Some(i)
    decreases i
  {
    if i > 0 {
      var t := r[1..];
      assert t[i - 1] == r[i];
      forall a | 0 <= a < i - 1
        ensures t[a].key != t[i - 1].key
      {
        assert t[a] == r[a + 1];
      }
      IndexOfFirst(t, i - 1);
    }
  }

  lemma {:induction false} BumpKeys<K, P>(acc: seq<Entry<K, P>>, e: Event<K, P>)
    ensures Keys(Bump(acc, e)) == if e.key in Keys(acc) then Keys(acc) else Keys(acc) + [e.key]
  {
    match IndexOfKey(acc, e.key) {
      case Some(i) =>
        assert Keys(acc)[i] == e.key;
        assert Keys(Bump(acc, e)) == Keys(acc);
      case None =>
        assert e.key !in Keys(acc);
        assert Keys(Bump(acc, e)) == Keys(acc) + [e.key];
    }
  }

  /** The entries of a tally are the distinct event keys in order of first
      appearance. */
  lemma {:induction false} TallyKeys<K, P>(evs: seq<Event<K, P>>)
    ensures Keys(Tally(evs)) == Seqs.Dedup(EventKeys(evs))
    decreases |evs|
  {
    if |evs| > 0 {
      var front := evs[..|evs| - 1];
      var e := evs[|evs| - 1];
      TallyKeys(front);
      BumpKeys(Tally(front), e);
      var ks := EventKeys(evs);
      assert ks[..|ks| - 1] == EventKeys(front);
      assert ks[|ks| - 1] == e.key;
    }
  }

  lemma TallyDistinct<K, P>(evs: seq<Event<K, P>>)
    ensures Seqs.Distinct(Keys(Tally(evs)))
  {
    TallyKeys(evs);
  }

  lemma BumpTotal<K, P>(acc: seq<Entry<K, P>>, e: Event<K, P>, k: K)
    ensures TotalOf(Bump(acc, e), k) == TotalOf(acc, k) + (if e.key == k then e.weight else 0)
    ensures InfoOf(Bump(acc, e), k) == if InfoOf(acc, k).Some? then InfoOf(acc, k)
      else if e.key == k then Some(e.info) else None
  {
    var b := Bump(acc, e);
    match IndexOfKey(acc, e.key) {
      case Some(i) =>
        assert forall j :: 0 <= j < |b| ==> b[j].key == acc[j].key;
        IndexOfSameKeys(acc, b, k);
      case None =>
        IndexOfSnoc(acc, Entry(e.key, e.weight, e.info), k);
    }
  }

  /** Entries with the same keys in the same places are searched alike. */
  lemma IndexOfSameKeys<K, P>(a: seq<Entry<K, P>>, b: seq<Entry<K, P>>, k: K)
    requires |a| == |b| && forall j :: 0 <= j < |a| ==> a[j].key == b[j].key
    ensures IndexOfKey(a, k) == IndexOfKey(b, k)
  {
    match IndexOfKey(a, k) {
      case Some(i) => assert b[i].key == k;
      case None =>
    }
  }

  /** A new last entry is found only when no earlier one carries its key. */
  lemma IndexOfSnoc<K, P>(a: seq<Entry<K, P>>, x: Entry<K, P>, k: K)
    ensures IndexOfKey(a + [x], k) == if IndexOfKey(a, k).Some? then IndexOfKey(a, k)
      else if x.key == k then Some(|a|) else None
  {
    var b := a + [x];
    match IndexOfKey(a, k) {
      case Some(i) =>
        assert forall j :: 0 <= j < i ==> b[j] == a[j];
        IndexOfFirst(b, i);
      case None =>
        assert forall j :: 0 <= j < |a| ==> b[j] == a[j];
        if x.key == k {
          IndexOfFirst(b, |a|);
        } else {
          assert forall j :: 0 <= j < |b| ==> b[j].key != k;
        }
    }
  }


  /** Each key's total is the sum of its events' weights, and its payload
      is the payload of its first event. */
  lemma {:induction false} TallyTotals<K, P>(evs: seq<Event<K, P>>, k: K)
    ensures TotalOf(Tally(evs), k) == SumFor(evs, k)
    ensures InfoOf(Tally(evs), k) == FirstInfo(evs, k)
    decreases |evs|
  {
    if |evs| > 0 {
      var front := evs[..|evs| - 1];
      TallyTotals(front, k);
      BumpTotal(Tally(front), evs[|evs| - 1], k);
    }
  }

  /** Entry-wise form of `TallyTotals`. */
  lemma TallyEntry<K, P>(evs: seq<Event<K, P>>, i: nat)
    requires i < |Tally(evs)|
    ensures Tally(evs)[i].total == SumFor(evs, Tally(evs)[i].key)
    ensures Some(Tally(evs)[i].info) == FirstInfo(evs, Tally(evs)[i].key)
  {
    TallyDistinct(evs);
    IndexOfDistinct(Tally(evs), i);
    TallyTotals(evs, Tally(evs)[i].key);
  }

  lemma {:induction false} SumTotalsUpdate<K, P>(r: seq<Entry<K, P>>, i: nat, w: int)
    requires i < |r|
    ensures SumTotals(r[i := r[i].(total := r[i].total + w)]) == SumTotals(r) + w
    decreases |r|
  {
    var r' := r[i := r[i].(total := r[i].total + w)];
    if i == |r| - 1 {
      assert r'[..|r| - 1] == r[..|r| - 1];
    } else {
      var f := r[..|r| - 1];
      assert r'[..|r| - 1] == f[i := f[i].(total := f[i].total + w)];
      SumTotalsUpdate(f, i, w);
    }
  }

  /** Grouping neither creates nor loses weight. */
  lemma {:induction false} TallyPreservesTotal<K, P>(evs: seq<Event<K, P>>)
    ensures SumTotals(Tally(evs)) == SumWeights(evs)
    decreases |evs|
  {
    if |evs| > 0 {
      var front := evs[..|evs| - 1];
      var e := evs[|evs| - 1];
      var acc := Tally(front);
      TallyPreservesTotal(front);
      match IndexOfKey(acc, e.key) {
        case Some(i) =>
          SumTotalsUpdate(acc, i, e.weight);
        case None =>
          assert (acc + [Entry(e.key, e.weight, e.info)])[..|acc|] == acc;
      }
    }
  }

  /** With unit weights, a key's total counts its occurrences. */
  lemma {:induction false} SumForUnit<K, P>(evs: seq<Event<K, P>>, k: K)
    requires forall i :: 0 <= i < |evs| ==> evs[i].weight == 1
    ensures SumFor(evs, k) == Seqs.Count(EventKeys(evs), k)
    decreases |evs|
  {
    if |evs| > 0 {
      var front := evs[..|evs| - 1];
      SumForUnit(front, k);
      var ks := EventKeys(evs);
      assert ks == EventKeys(front) + [evs[|evs| - 1].key];
      Seqs.CountSnoc(EventKeys(front), evs[|evs| - 1].key, k);
    }
  }

  /** Sums over a concatenation add up. */
  lemma {:induction false} SumForAppend<K, P>(a: seq<Event<K, P>>, b: seq<Event<K, P>>, k: K)
    ensures SumFor(a + b, k) == SumFor(a, k) + SumFor(b, k)
    decreases |b|
  {
    if |b| == 0 {
      assert a + b == a;
    } else {
      var b' := b[..|b| - 1];
      assert (a + b)[..|a + b| - 1] == a + b';
      SumForAppend(a, b', k);
    }
  }

  /** Sorting a tally (any permutation of it) keeps one entry per key. */
  lemma PermutedKeysDistinct<K, P>(t: seq<Entry<K, P>>, r: seq<Entry<K, P>>)
    requires Seqs.Distinct(Keys(t))
    requires multiset(r) == multiset(t)
    ensures Seqs.Distinct(Keys(r))
  {
    forall i, j | 0 <= i < j < |r|
      ensures r[i].key != r[j].key
    {
      if r[i].key == r[j].key {
        assert r[i] in multiset(t) && r[j] in multiset(t);
        var p :| 0 <= p < |t| && t[p] == r[i];
        var q :| 0 <= q < |t| && t[q] == r[j];
        if p == q {
          // the same entry twice in r: its multiplicity would be two
          Seqs.TwoOccurrences(r, i, j);
          Seqs.DistinctMultiplicity(t, r[i]) by {
            forall a, b | 0 <= a < b < |t|
              ensures t[a] != t[b]
            {
              assert Keys(t)[a] != Keys(t)[b];
            }
          }
          assert false;
        }
      }
    }
  }

  /** The grouped counts after a stable sort by any key: one entry per key,
      exactly the keys that occur, each with its summed weight and the
      payload of its first event. */
  lemma SortedTally<K, P>(evs: seq<Event<K, P>>, order: Entry<K, P> -> int)
    ensures var r := Seqs.SortDesc(Tally(evs), order);
      Seqs.SortedDesc(r, order) && Seqs.Distinct(Keys(r)) &&
      (forall i :: 0 <= i < |r| ==>
        r[i].key in EventKeys(evs) && r[i].total == SumFor(evs, r[i].key) &&
        Some(r[i].info) == FirstInfo(evs, r[i].key)) &&
      (forall k :: k in EventKeys(evs) ==> k in Keys(r))
  {
    var t := Tally(evs);
    var r := Seqs.SortDesc(t, order);
    TallyDistinct(evs);
    PermutedKeysDistinct(t, r);
    TallyKeys(evs);
    forall i | 0 <= i < |r|
      ensures r[i].key in EventKeys(evs) && r[i].total == SumFor(evs, r[i].key)
      ensures Some(r[i].info) == FirstInfo(evs, r[i].key)
    {
      PermutedEntry(evs, r, i);
    }
    forall k | k in EventKeys(evs)
      ensures k in Keys(r)
    {
      PermutedCovers(t, r, k);
    }
  }

  /** Any entry of a permuted tally carries its key's sum and first payload. */
  lemma PermutedEntry<K, P>(evs: seq<Event<K, P>>, r: seq<Entry<K, P>>, i: nat)
    requires multiset(r) == multiset(Tally(evs))
    requires i < |r|
    ensures r[i].key in EventKeys(evs) && r[i].total == SumFor(evs, r[i].key)
    ensures Some(r[i].info) == FirstInfo(evs, r[i].key)
  {
    var t := Tally(evs);
    assert r[i] in multiset(t);
    var j :| 0 <= j < |t| && t[j] == r[i];
    TallyEntry(evs, j);
    TallyKeys(evs);
    assert Keys(t)[j] == r[i].key;
    var d := Seqs.Dedup(EventKeys(evs));
    assert d[j] == r[i].key;
  }

  /** A permutation keeps every key. */
  lemma PermutedCovers<K, P>(t: seq<Entry<K, P>>, r: seq<Entry<K, P>>, k: K)
    requires multiset(r) == multiset(t)
    requires k in Keys(t)
    ensures k in Keys(r)
  {
    var j :| 0 <= j < |Keys(t)| && Keys(t)[j] == k;
    assert t[j] in multiset(r);
    var i :| 0 <= i < |r| && r[i] == t[j];
    assert Keys(r)[i] == k;
  }

  /** Event `j` is the earliest one with key `k`. */
  predicate Earliest<K(==), P>(evs: seq<Event<K, P>>, k: K, j: int) {
    0 <= j < |evs| && evs[j].key == k && forall j' :: 0 <= j' < j ==> evs[j'].key != k
  }

  /** `FirstInfo` is the payload of the earliest event with that key. */
  lemma {:induction false} FirstInfoEarliest<K, P>(evs: seq<Event<K, P>>, k: K)
    requires FirstInfo(evs, k).Some?
    ensures exists j :: Earliest(evs, k, j) && evs[j].info == FirstInfo(evs, k).value
    decreases |evs|
  {
    var front := evs[..|evs| - 1];
    if FirstInfo(front, k).Some? {
      FirstInfoEarliest(front, k);
      var j :| Earliest(front, k, j) && front[j].info == FirstInfo(front, k).value;
      assert evs[j] == front[j];
      assert forall j' :: 0 <= j' < j ==> evs[j'] == front[j'];
      assert Earliest(evs, k, j);
    } else {
      FirstInfoNone(front, k);
      assert forall j' :: 0 <= j' < |evs| - 1 ==> evs[j'] == front[j'];
      assert Earliest(evs, k, |evs| - 1);
    }
  }

  lemma {:induction false} FirstInfoNone<K, P>(evs: seq<Event<K, P>>, k: K)
    requires FirstInfo(evs, k).None?
    ensures forall j :: 0 <= j < |evs| ==> evs[j].key != k
    decreases |evs|
  {
    if |evs| > 0 {
      var front := evs[..|evs| - 1];
      FirstInfoNone(front, k);
      assert forall j :: 0 <= j < |evs| - 1 ==> evs[j] == front[j];
    }
  }
}
