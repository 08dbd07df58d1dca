/** The single-selection toggle shared by the tools chart and the funding
    bar: clicking a bar selects it, clicking the selected bar clears it, a
    reset clears it, and every change is reported to an optional callback.
    Only the state after the 50 ms delayed update is modelled. */
module Selection {
  import opened Wrappers

  /** The selection after an event and the values reported to the
      callback, in order. */
  datatype Outcome = Outcome(selected: Option<string>, reported: seq<Option<string>>)

  /** A click on bar `name`. */
  function Click(selected: Option<string>, name: string, hasCallback: bool): (o: Outcome)
    ensures selected == Some(name) ==> o.selected == None
    ensures selected != Some(name) ==> o.selected == Some(name)
    ensures hasCallback <==> |o.reported| > 0
    ensures hasCallback ==> o.reported[|o.reported| - 1] == o.selected
    ensures hasCallback && selected != Some(name) ==> o.reported == [None, Some(name)]
  {
    if selected == Some(name) then Outcome(None, if hasCallback then [None] else [])
    else
      // first cleared, then set again once the delay has passed
      Outcome(Some(name), if hasCallback then [None, Some(name)] else [])
  }

  /** The "Clear filter" button. */
  function Reset(hasCallback: bool): (o: Outcome)
    ensures o.selected == None
    ensures hasCallback ==> o.reported == [None]
    ensures !hasCallback ==> o.reported == []
  {
    Outcome(None, if hasCallback then [None] else [])
  }

  /** Two clicks on the same bar from nothing selected, or one click on
      the selected bar, leave nothing selected; a click on another bar
      replaces the selection. */
  lemma ClickToggles(selected: Option<string>, name: string, other: string, cb: bool)
    ensures Click(Click(None, name, cb).selected, name, cb).selected == None
    ensures other != name ==> Click(Click(selected, name, cb).selected, other, cb).selected == Some(other)
  {
  }

  /** The fill of a bar: the highlight exactly for the selected name. */
  function Fill(entry: string, selected: Option<string>, highlight: string, base: string): (c: string)
    ensures selected == Some(entry) ==> c == highlight
    ensures highlight != base ==> (c == highlight <==> selected == Some(entry))
    ensures selected != Some(entry) ==> c == base
  {
    if selected == Some(entry) then highlight else base
  }

  /** At most one bar is highlighted. */
  lemma OneHighlight(a: string, b: string, selected: Option<string>, highlight: string, base: string)
    requires highlight != base && a != b
    ensures !(Fill(a, selected, highlight, base) == highlight && Fill(b, selected, highlight, base) == highlight)
  {
  }
}
