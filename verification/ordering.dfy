/** The "keep the first order seen" logic of the two bar charts: the bar
    names of the first non-empty series are captured once, and later
    series are re-listed in that captured order, looked up by name. */
module Ordering {
  import opened Wrappers
  import Seqs
  import Tallies

  type Entry = Tallies.Entry<string, string>

  function Names(es: seq<Entry>): seq<string> {
    Tallies.Keys(es)
  }

  /** `acc[e.name] = e` over the series: a later entry with the same name
      overwrites an earlier one. */
  function ByName(es: seq<Entry>, name: string): (o: Option<Entry>)
    ensures o.Some? ==> o.value in es && o.value.key == name
    ensures o.None? <==> name !in Names(es)
    decreases |es|
  {
    if |es| == 0 then None
    else
      var front := es[..|es| - 1];
      if es[|es| - 1].key == name then Some(es[|es| - 1])
      else
        assert forall k :: 0 <= k < |front| ==> Names(front)[k] == Names(es)[k];
        assert name in Names(es) && es[|es| - 1].key != name ==> name in Names(front);
        ByName(front, name)
  }

  /** With one entry per name, the lookup finds that entry. */
  lemma ByNameUnique(es: seq<Entry>, i: nat)
    requires Seqs.Distinct(Names(es)) && i < |es|
    ensures ByName(es, es[i].key) == Some(es[i])
  {
    var o := ByName(es, es[i].key);
    var j :| 0 <= j < |es| && es[j] == o.value;
    assert Names(es)[i] == Names(es)[j];
  }

  /** The captured names still present, each mapped to its current entry. */
  function Reorder(order: seq<string>, es: seq<Entry>): (r: seq<Entry>)
    ensures |r| <= |order|
    ensures forall i :: 0 <= i < |r| ==> r[i] in es
    decreases |order|
  {
    if |order| == 0 then []
    else match ByName(es, order[0])
      case Some(e) => [e] + Reorder(order[1..], es)
      case None => Reorder(order[1..], es)
  }

  /** The re-listed bars are the captured names that are still present,
      in captured order. */
  lemma {:induction false} ReorderNames(order: seq<string>, es: seq<Entry>)
    ensures Names(Reorder(order, es)) == Seqs.Filter(order, (n: string) => n in Names(es))
    decreases |order|
  {
    if |order| > 0 {
      ReorderNames(order[1..], es);
      match ByName(es, order[0])
      case Some(e) =>
        assert Names([e] + Reorder(order[1..], es)) == [e.key] + Names(Reorder(order[1..], es));
      case None =>
    }
  }

  /** Re-listing a series in its own order gives it back. */
  lemma {:induction false} ReorderOwn(es: seq<Entry>)
    requires Seqs.Distinct(Names(es))
    ensures Reorder(Names(es), es) == es
  {
    forall k | 0 <= k < |es|
      ensures ByName(es, es[k].key) == Some(es[k])
    {
      ByNameUnique(es, k);
    }
    ReorderSuffix(es, Names(es), 0);
  }

  lemma {:induction false} ReorderSuffix(es: seq<Entry>, ns: seq<string>, i: nat)
    requires i <= |es| && |ns| == |es|
    requires forall k :: 0 <= k < |es| ==> ns[k] == es[k].key
    requires forall k :: i <= k < |es| ==> ByName(es, es[k].key) == Some(es[k])
    ensures Reorder(ns[i..], es) == es[i..]
    decreases |es| - i
  {
    if i < |es| {
      var order := ns[i..];
      ReorderSuffix(es, ns, i + 1);
      assert order[0] == es[i].key;
      assert order[1..] == ns[i + 1..];
      ReorderCons(order, es, es[i]);
      calc {
        Reorder(order, es);
        [es[i]] + Reorder(order[1..], es);
        [es[i]] + Reorder(ns[i + 1..], es);
        [es[i]] + es[i + 1..];
        es[i..];
      }
    }
  }

  lemma ReorderCons(order: seq<string>, es: seq<Entry>, e: Entry)
    requires |order| > 0 && ByName(es, order[0]) == Some(e)
    ensures Reorder(order, es) == [e] + Reorder(order[1..], es)
  {
  }

  /** When every current name was captured and names are unique on both
      sides, the re-listed series is a permutation of the current one. */
  lemma ReorderPermutes(order: seq<string>, es: seq<Entry>)
    requires Seqs.Distinct(order) && Seqs.Distinct(Names(es))
    requires forall i :: 0 <= i < |es| ==> es[i].key in order
    ensures multiset(Reorder(order, es)) == multiset(es)
  {
    var r := Reorder(order, es);
    ReorderNames(order, es);
    Seqs.FilterDistinct(order, (n: string) => n in Names(es));
    forall x
      ensures x in r <==> x in es
    {
      if x in es {
        var i :| 0 <= i < |es| && es[i] == x;
        ReorderHas(order, es, i);
      }
    }
    forall a, b | 0 <= a < b < |r|
      ensures r[a] != r[b]
    {
      assert Names(r)[a] != Names(r)[b];
    }
    forall a, b | 0 <= a < b < |es|
      ensures es[a] != es[b]
    {
      assert Names(es)[a] != Names(es)[b];
    }
    Seqs.SameElementsPermutation(r, es);
  }

  /** A current entry whose name was captured is re-listed. */
  lemma ReorderHas(order: seq<string>, es: seq<Entry>, i: nat)
    requires Seqs.Distinct(Names(es)) && i < |es| && es[i].key in order
    ensures es[i] in Reorder(order, es)
  {
    var r := Reorder(order, es);
    var ns := Seqs.Filter(order, (n: string) => n in Names(es));
    ReorderNames(order, es);
    assert Names(es)[i] == es[i].key;
    Seqs.FilterMembership(order, (n: string) => n in Names(es), es[i].key);
    var k :| 0 <= k < |ns| && ns[k] == es[i].key;
    assert Names(r)[k] == es[i].key;
    ByNameUnique(es, i);
    var m :| 0 <= m < |es| && es[m] == r[k];
    assert Names(es)[m] == Names(es)[i];
  }

  /** The captured order: set from the first non-empty series, then
      never changed. */
  function Capture(captured: seq<string>, es: seq<Entry>): (c: seq<string>)
    ensures |captured| > 0 ==> c == captured
    ensures |captured| == 0 ==> c == Names(es)
  {
    if |es| > 0 && |captured| == 0 then Names(es) else captured
  }
}
