/** The read side of the projects API: reshaping one results-table row into
    the record the dashboard expects, and fetching all rows. A row is a map
    from column names to values; a repeated column holds records, which are
    maps in turn. */
module Projects {
  import opened Wrappers
  import Seqs

  /** A column value: SQL `NULL`, a scalar (shown as its text), or a
      repeated record column. */
  datatype Val = Null | Text(s: string) | Records(items: seq<map<string, Val>>)

  type Row = map<string, Val>

  /** Python truthiness of a value. */
  predicate Truthy(v: Val) {
    (v.Text? && v.s != "") || (v.Records? && |v.items| > 0)
  }

  /** `row.get(key, default)`: the default only when the key is absent; a
      present `NULL` is returned as is. */
  function Get(row: Row, key: string, default: Val): (v: Val)
    ensures key in row ==> v == row[key]
    ensures key !in row ==> v == default
  {
    if key in row then row[key] else default
  }

  const Unknown := Text("Unknown")
  const UnknownEmail := Text("unknown@example.com")
  const Empty := Text("")
  const NoItems := Records([])

  datatype Tool = Tool(name: Val, rationale: Val, context: Val)

  predicate HasTechnology(item: map<string, Val>) {
    "technology" in item && Truthy(item["technology"])
  }

  function ToolOf(item: map<string, Val>): Tool {
    Tool(Get(item, "technology", Empty), Get(item, "relevance_justification", Empty),
         Get(item, "project_description_context", Empty))
  }

  /** The `relevantTools` loop over one record list. */
  function Tools(items: seq<map<string, Val>>): (r: seq<Tool>)
    ensures |r| == |Seqs.Filter(items, HasTechnology)|
    ensures forall i :: 0 <= i < |r| ==> r[i] == ToolOf(Seqs.Filter(items, HasTechnology)[i])
    decreases |items|
  {
    if |items| == 0 then []
    else (if HasTechnology(items[0]) then [ToolOf(items[0])] else []) + Tools(items[1..])
  }

  /** Every tool shown has a non-empty name taken from a record's
      `technology`, and a record with a truthy `technology` is never
      dropped. */
  lemma ToolsFaithful(items: seq<map<string, Val>>, item: map<string, Val>)
    ensures forall t :: t in Tools(items) ==> Truthy(t.name)
    ensures item in items && HasTechnology(item) ==> ToolOf(item) in Tools(items)
  {
    var f := Seqs.Filter(items, HasTechnology);
    forall t | t in Tools(items)
      ensures Truthy(t.name)
    {
      var i :| 0 <= i < |Tools(items)| && Tools(items)[i] == t;
      assert HasTechnology(f[i]);
    }
    if item in items && HasTechnology(item) {
      Seqs.FilterMembership(items, HasTechnology, item);
      var i :| 0 <= i < |f| && f[i] == item;
      assert Tools(items)[i] == ToolOf(item);
    }
  }

  /** Tools of a concatenation are the concatenation of the tools: the
      order of the records is kept. */
  lemma {:induction false} ToolsAppend(a: seq<map<string, Val>>, b: seq<map<string, Val>>)
    ensures Tools(a + b) == Tools(a) + Tools(b)
    decreases |a|
  {
    if |a| == 0 {
      assert a + b == b;
    } else {
      assert (a + b)[1..] == a[1..] + b;
      ToolsAppend(a[1..], b);
    }
  }

  predicate HasOutcome(item: map<string, Val>) {
    "outcome_item" in item && Truthy(item["outcome_item"])
  }

  /** The `quantifiable_outcomes` comprehension: the truthy `outcome_item`
      values, in order. */
  function Outcomes(items: seq<map<string, Val>>): (r: seq<Val>)
    ensures |r| == |Seqs.Filter(items, HasOutcome)|
    ensures forall i :: 0 <= i < |r| ==> Truthy(r[i]) && r[i] == Seqs.Filter(items, HasOutcome)[i]["outcome_item"]
    decreases |items|
  {
    if |items| == 0 then []
    else (if HasOutcome(items[0]) then [items[0]["outcome_item"]] else []) + Outcomes(items[1..])
  }

  /** The record the dashboard reads. */
  datatype Project = Project(
    id: Val, name: Val, legalAgreement: Val, fileUrl: Val, region: Val, hub: Val, donor: Val,
    projectManager: Val, projectManagerEmail: Val, deputyProjectManager: Val, deputyProjectManagerEmail: Val,
    summary: Val, objectives: Val, problemsAddressed: Val, beneficiaries: Val, anticipatedOutcomes: Val,
    sdgGoals: Val, sdgIndicators: Val,
    relevantTools: seq<Tool>, quantifiableOutcomes: seq<Val>,
    quantifiableOutcomeList: Val, remoteSensingTools: Val)

  /** The items iterated when a column is looped over, or `None` when the
      loop raises: iterating `NULL` raises, iterating a string yields
      characters on which `.get` raises, unless the string is empty. */
  function Iterate(v: Val): (r: Option<seq<map<string, Val>>>)
    ensures v.Records? ==> r == Some(v.items)
    ensures v == Empty ==> r == Some([])
    ensures r.None? <==> v.Null? || (v.Text? && v.s != "")
  {
    match v
    case Records(items) => Some(items)
    case Text(s) => if s == "" then Some([]) else None
    case Null => None
  }

  /** `transform_project_for_frontend`; `None` when it raises. */
  function Transform(p: Row): (r: Option<Project>)
    ensures r.None? <==>
      (Truthy(Get(p, "remote_sensing_tools", NoItems)) && !Get(p, "remote_sensing_tools", NoItems).Records?) ||
      Iterate(Get(p, "quantifiable_outcome_list", NoItems)).None?
    ensures r.Some? ==>
      r.value.relevantTools == (if Truthy(Get(p, "remote_sensing_tools", NoItems))
                                then Tools(p["remote_sensing_tools"].items) else [])
    ensures r.Some? ==> r.value.quantifiableOutcomes == Outcomes(Iterate(Get(p, "quantifiable_outcome_list", NoItems)).value)
  {
    var rst := Get(p, "remote_sensing_tools", NoItems);
    var qol := Get(p, "quantifiable_outcome_list", NoItems);
    if Truthy(rst) && !rst.Records? then None
    else match Iterate(qol)
      case None => None
      case Some(outcomeItems) =>
        var tools := if Truthy(rst) then Tools(rst.items) else [];
        Some(Project(
          Get(p, "file_id", Empty), Get(p, "Engagement_Description", Empty),
          Get(p, "Legal_Agreement", Empty), Get(p, "File_URL", Empty),
          Get(p, "Region", Unknown), Get(p, "Hub", Empty), Get(p, "Donor_Description", Empty),
          Get(p, "Project_Manager_Name", Unknown), Get(p, "Project_Manager_Email_Address", UnknownEmail),
          Get(p, "Deputy_Project_Manager_Name", Empty), Get(p, "Deputy_Project_Manager_Email_Address", Empty),
          Get(p, "project_summary", Empty), Get(p, "objectives", Empty), Get(p, "problems_addressed", Empty),
          Get(p, "beneficiaries_and_impacted_groups", Empty),
          Get(p, "anticipated_outcomes_short_and_long_term", Empty),
          Get(p, "sdg_goals", NoItems), Get(p, "sdg_indicators", NoItems),
          tools, Outcomes(outcomeItems),
          qol, rst))
  }

  /** A row holding only well-formed repeated columns never makes the
      transform raise. */
  lemma TransformTotal(p: Row)
    requires "remote_sensing_tools" in p ==> p["remote_sensing_tools"].Records?
    requires "quantifiable_outcome_list" in p ==> p["quantifiable_outcome_list"].Records?
    ensures Transform(p).Some?
  {
  }

  /** The renamed columns: each output field is the column it is read
      from, and the fallback when that column is absent. */
  lemma TransformFields(p: Row)
    requires Transform(p).Some?
    ensures var t := Transform(p).value;
      t.id == Get(p, "file_id", Empty) && t.name == Get(p, "Engagement_Description", Empty) &&
      t.legalAgreement == Get(p, "Legal_Agreement", Empty) && t.fileUrl == Get(p, "File_URL", Empty) &&
      t.region == Get(p, "Region", Unknown) && t.hub == Get(p, "Hub", Empty) &&
      t.donor == Get(p, "Donor_Description", Empty)
    ensures var t := Transform(p).value;
      t.projectManager == Get(p, "Project_Manager_Name", Unknown) &&
      t.projectManagerEmail == Get(p, "Project_Manager_Email_Address", UnknownEmail) &&
      t.deputyProjectManager == Get(p, "Deputy_Project_Manager_Name", Empty) &&
      t.deputyProjectManagerEmail == Get(p, "Deputy_Project_Manager_Email_Address", Empty)
    ensures var t := Transform(p).value;
      t.summary == Get(p, "project_summary", Empty) && t.objectives == Get(p, "objectives", Empty) &&
      t.problemsAddressed == Get(p, "problems_addressed", Empty) &&
      t.beneficiaries == Get(p, "beneficiaries_and_impacted_groups", Empty) &&
      t.anticipatedOutcomes == Get(p, "anticipated_outcomes_short_and_long_term", Empty) &&
      t.sdgGoals == Get(p, "sdg_goals", NoItems) && t.sdgIndicators == Get(p, "sdg_indicators", NoItems) &&
      t.quantifiableOutcomeList == Get(p, "quantifiable_outcome_list", NoItems) &&
      t.remoteSensingTools == Get(p, "remote_sensing_tools", NoItems)
    ensures var t := Transform(p).value;
      ("Region" !in p ==> t.region == Unknown) &&
      ("Project_Manager_Name" !in p ==> t.projectManager == Unknown) &&
      ("Project_Manager_Email_Address" !in p ==> t.projectManagerEmail == UnknownEmail) &&
      ("Hub" !in p ==> t.hub == Empty) &&
      ("remote_sensing_tools" !in p ==> t.relevantTools == []) &&
      ("quantifiable_outcome_list" !in p ==> t.quantifiableOutcomes == [] && t.quantifiableOutcomeList == NoItems)
  {
  }

  // ---------------------------------------------------------------------
  // fetch_projects_from_bigquery

  const RepeatedColumns := ["quantifiable_outcome_list", "sdg_goals", "sdg_indicators", "remote_sensing_tools"]

  /** `[dict(item) for item in value]` for a non-`NULL` repeated column:
      records stay records, the empty string becomes an empty list, and a
      non-empty string raises. */
  function NormalizeValue(v: Val): (r: Option<Val>)
    ensures v.Null? ==> r == Some(Null)
    ensures v.Records? ==> r == Some(v)
    ensures r.None? <==> v.Text? && v.s != ""
  {
    match v
    case Null => Some(Null)
    case Records(_) => Some(v)
    case Text(s) => if s == "" then Some(NoItems) else None
  }

  function NormalizeKeys(p: Row, keys: seq<string>): (r: Option<Row>)
    ensures r.Some? ==> r.value.Keys == p.Keys
    ensures r.Some? ==> forall k :: k in p && k !in keys ==> r.value[k] == p[k]
    ensures r.None? <==> exists i :: 0 <= i < |keys| && keys[i] in p && NormalizeValue(p[keys[i]]).None?
    decreases |keys|
  {
    if |keys| == 0 then Some(p)
    else
      var k := keys[0];
      var tail := keys[1..];
      assert forall i :: 1 <= i < |keys| ==> keys[i] == tail[i - 1];
      if k in p && NormalizeValue(p[k]).None? then None
      else
        var p1 := if k in p then p[k := NormalizeValue(p[k]).value] else p;
        assert forall i :: 0 <= i < |tail| ==> (tail[i] in p1 <==> tail[i] in p);
        assert forall i :: 0 <= i < |tail| && tail[i] != k && tail[i] in p ==> p1[tail[i]] == p[tail[i]];
        NormalizeKeys(p1, tail)
  }

  /** Normalizing the repeated columns of one row. */
  function Normalize(p: Row): (r: Option<Row>)
    ensures r.Some? ==> r.value.Keys == p.Keys
    ensures r.None? <==> exists i :: 0 <= i < |RepeatedColumns| && RepeatedColumns[i] in p &&
                                      NormalizeValue(p[RepeatedColumns[i]]).None?
  {
    NormalizeKeys(p, RepeatedColumns)
  }

  /** One row through normalization and the transform; `None` when either
      raises. */
  function ShapeRow(p: Row): (r: Option<Project>)
    ensures r.Some? <==> Normalize(p).Some? && Transform(Normalize(p).value).Some?
    ensures r.Some? ==> r == Transform(Normalize(p).value)
  {
    match Normalize(p)
    case None => None
    case Some(q) => Transform(q)
  }

  /** The rows shaped in order, or `None` as soon as one raises. */
  function ShapeAll(rows: seq<Row>): (r: Option<seq<Project>>)
    ensures r.Some? ==> |r.value| == |rows|
    ensures r.Some? ==> forall i :: 0 <= i < |rows| ==> ShapeRow(rows[i]) == Some(r.value[i])
    ensures r.None? <==> exists i :: 0 <= i < |rows| && ShapeRow(rows[i]).None?
  {
    Seqs.AllSome(rows, ShapeRow)
  }

  /** `fetch_projects_from_bigquery`: one record per row in row order, and
      `[]` instead of raising when the client is missing, the query fails or
      any row cannot be shaped. */
  function Fetch(client: bool, queryOk: bool, rows: seq<Row>): (r: seq<Project>)
    ensures !client || !queryOk ==> r == []
    ensures client && queryOk && ShapeAll(rows).Some? ==> r == ShapeAll(rows).value && |r| == |rows|
    ensures ShapeAll(rows).None? ==> r == []
  {
    if !client || !queryOk then []
    else match ShapeAll(rows)
      case None => []
      case Some(ps) => ps
  }
}
