/** The official SDG colour table, shared by the summary chart and the map,
    and the name-keyed copy of it inside the impact graph. */
module Palette {
  import opened Wrappers

  /** Colour of goal `n` is entry `n - 1`. */
  const SdgColors: seq<string> := [
    "#E5243B", "#DDA63A", "#4C9F38", "#C5192D", "#FF3A21", "#26BDE2",
    "#FCC30B", "#A21942", "#FD6925", "#DD1367", "#FD9D24", "#BF8B2E",
    "#3F7E44", "#0A97D9", "#56C02B", "#00689D", "#19486A"]

  /** `sdgColors[i] || fallback` for an integer index (an out-of-range
      index reads `undefined`). */
  function ColorAt(i: int, fallback: string): (c: string)
    ensures 0 <= i < |SdgColors| ==> c == SdgColors[i]
    ensures !(0 <= i < |SdgColors|) ==> c == fallback
  {
    if 0 <= i < |SdgColors| then SdgColors[i] else fallback
  }

  /** The goal names the impact graph colours: `SDG 1` to `SDG 17`. */
  const GraphNames: seq<string> := [
    "SDG 1", "SDG 2", "SDG 3", "SDG 4", "SDG 5", "SDG 6", "SDG 7", "SDG 8", "SDG 9",
    "SDG 10", "SDG 11", "SDG 12", "SDG 13", "SDG 14", "SDG 15", "SDG 16", "SDG 17"]

  /** The impact graph's own table, keyed by goal name and written out
      separately from the shared one. */
  const GraphColors: map<string, string> := map[
    "SDG 1" := "#E5243B", "SDG 2" := "#DDA63A", "SDG 3" := "#4C9F38",
    "SDG 4" := "#C5192D", "SDG 5" := "#FF3A21", "SDG 6" := "#26BDE2",
    "SDG 7" := "#FCC30B", "SDG 8" := "#A21942", "SDG 9" := "#FD6925",
    "SDG 10" := "#DD1367", "SDG 11" := "#FD9D24", "SDG 12" := "#BF8B2E",
    "SDG 13" := "#3F7E44", "SDG 14" := "#0A97D9", "SDG 15" := "#56C02B",
    "SDG 16" := "#00689D", "SDG 17" := "#19486A"]

  /** The graph's table agrees entry by entry with the shared one: the
      colour of `SDG n` is the shared colour of goal `n`, and it colours no
      other name. */
  lemma GraphAgrees()
    ensures |GraphNames| == |SdgColors|
    ensures forall i :: 0 <= i < |GraphNames| ==>
      GraphNames[i] in GraphColors && GraphColors[GraphNames[i]] == SdgColors[i]
    ensures forall name :: name in GraphColors ==> name in GraphNames
  {
    forall i | 0 <= i < |GraphNames|
      ensures GraphNames[i] in GraphColors && GraphColors[GraphNames[i]] == SdgColors[i]
    {
      GraphEntry(i);
    }
  }

  /** Entry `i` of the graph's table. */
  lemma GraphEntry(i: nat)
    requires i < |GraphNames|
    ensures GraphNames[i] in GraphColors && GraphColors[GraphNames[i]] == SdgColors[i]
  {
    if i < 9 {
      if i == 0 {} else if i == 1 {} else if i == 2 {} else if i == 3 {} else if i == 4 {}
      else if i == 5 {} else if i == 6 {} else if i == 7 {} else {}
    } else {
      if i == 9 {} else if i == 10 {} else if i == 11 {} else if i == 12 {} else if i == 13 {}
      else if i == 14 {} else if i == 15 {} else {}
    }
  }
}
