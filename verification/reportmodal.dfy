/** The project report dialog: the PDF file name derived from the project
    name, the fallback texts of the single-value fields, and the lists that
    show one placeholder item when there is nothing to list. */
module ReportModal {
  import opened Wrappers
  import opened Strs
  import Dashboard

  const ReportSuffix := "_report.pdf"

  // ---------------------------------------------------------------------
  // File name
  // ---------------------------------------------------------------------

  /** `name.replace(/[^a-z0-9]/gi, '_').toLowerCase()`: ASCII letters and
      digits are kept (letters lowered), everything else becomes `_`. */
  function Sanitize(name: string): (r: string)
    ensures |r| == |name|
    ensures forall i :: 0 <= i < |r| ==> IsFileChar(r[i])
    ensures forall i :: 0 <= i < |r| ==> (r[i] == '_' <==> !IsAsciiAlnum(name[i]))
    ensures forall i :: 0 <= i < |name| && IsAsciiAlnum(name[i]) ==> r[i] == LowerChar(name[i])
  {
    seq(|name|, i requires 0 <= i < |name| => SanitizeChar(name[i]))
  }

  function SanitizeChar(c: char): (d: char)
    ensures IsFileChar(d)
    ensures IsAsciiAlnum(c) ==> d == LowerChar(c)
    ensures !IsAsciiAlnum(c) ==> d == '_'
  {
    if IsAsciiAlnum(c) then LowerChar(c) else '_'
  }

  /** The characters a sanitised name is made of: `[a-z0-9_]`. */
  predicate IsFileChar(c: char) {
    IsAsciiLower(c) || IsAsciiDigit(c) || c == '_'
  }

  /** A name already made of `[a-z0-9_]` is left as it is. */
  lemma SanitizeFileChars(name: string)
    requires forall i :: 0 <= i < |name| ==> IsFileChar(name[i])
    ensures Sanitize(name) == name
  {
  }

  /** Sanitising twice is sanitising once. */
  lemma SanitizeIdempotent(name: string)
    ensures Sanitize(Sanitize(name)) == Sanitize(name)
  {
    SanitizeFileChars(Sanitize(name));
  }

  /** Names that differ only in the case of ASCII letters share a file. */
  lemma SanitizeIgnoresCase(name: string)
    ensures Sanitize(Lower(name)) == Sanitize(name)
  {
    var a := Sanitize(Lower(name));
    var b := Sanitize(name);
    forall i | 0 <= i < |name|
      ensures a[i] == b[i]
    {
      var c := name[i];
      if IsAsciiUpper(c) {
        assert IsAsciiLower(LowerChar(c));
      }
    }
  }

  /** The PDF file name: the sanitised name followed by `_report.pdf`. */
  function FileName(name: string): (r: string)
    ensures EndsWith(r, ReportSuffix)
    ensures |r| == |name| + |ReportSuffix|
    ensures r[..|name|] == Sanitize(name)
  {
    Sanitize(name) + ReportSuffix
  }

  /** The file name gives back the sanitised name, so two projects share
      a file name exactly when their sanitised names agree. */
  lemma FileNameInjective(a: string, b: string)
    ensures FileName(a) == FileName(b) <==> Sanitize(a) == Sanitize(b)
  {
    if FileName(a) == FileName(b) {
      assert |a| == |b|;
      assert FileName(a)[..|a|] == FileName(b)[..|b|];
    }
  }

  // ---------------------------------------------------------------------
  // Fields
  // ---------------------------------------------------------------------

  /** `value || fallback` for an optional string: the empty string falls
      through as well. */
  function OrElse(value: Option<string>, fallback: string): (r: string)
    ensures Dashboard.Truthy(value) ==> r == value.value
    ensures !Dashboard.Truthy(value) ==> r == fallback
  {
    if Dashboard.Truthy(value) then value.value else fallback
  }

  /** A fallback chain never shows an empty text when its last fallback is
      not empty, and shows the fallback only when the value is falsy. */
  lemma OrElseShown(value: Option<string>, fallback: string)
    requires fallback != ""
    ensures OrElse(value, fallback) != ""
    ensures OrElse(value, fallback) == fallback ==> !Dashboard.Truthy(value) || value.value == fallback
  {
  }

  /** Donor, else funding source, else `Unknown`. */
  function FundingSource(donor: Option<string>, fundingSource: Option<string>): (r: string)
    ensures r != ""
    ensures Dashboard.Truthy(donor) ==> r == donor.value
    ensures !Dashboard.Truthy(donor) && Dashboard.Truthy(fundingSource) ==> r == fundingSource.value
    ensures !Dashboard.Truthy(donor) && !Dashboard.Truthy(fundingSource) ==> r == "Unknown"
  {
    OrElse(donor, OrElse(fundingSource, "Unknown"))
  }

  // ---------------------------------------------------------------------
  // Lists
  // ---------------------------------------------------------------------

  /** One list entry: a title and the lines under it. */
  datatype Item = Item(title: string, lines: seq<string>)

  /** `Array.isArray(v) && v.length > 0`; a value that is not an array is
      `None`. */
  predicate Listed<T>(v: Option<seq<T>>) {
    v.Some? && |v.value| > 0
  }

  /** The entries of a list, or the single placeholder entry. */
  function Items<T>(v: Option<seq<T>>, render: T -> Item, placeholder: Item): (r: seq<Item>)
    ensures |r| >= 1
    ensures Listed(v) ==> |r| == |v.value| && forall i :: 0 <= i < |r| ==> r[i] == render(v.value[i])
    ensures !Listed(v) ==> r == [placeholder]
  {
    if Listed(v) then seq(|v.value|, i requires 0 <= i < |v.value| => render(v.value[i]))
    else [placeholder]
  }

  datatype SdgEntry = SdgEntry(goal: string, name: string, relevance: string)
  datatype IndicatorEntry = IndicatorEntry(indicator: string, description: string, measurability: string)
  datatype ToolEntry = ToolEntry(name: string, rationale: string, context: Option<string>)
  datatype FileEntry = FileEntry(url: string, fileName: Option<string>)

  function SdgItem(s: SdgEntry): Item {
    Item("SDG #" + s.goal + ":", [s.name, "Relevance: " + s.relevance])
  }

  function IndicatorItem(d: IndicatorEntry): Item {
    Item(d.indicator + ":", [d.description, "Measurability: " + d.measurability])
  }

  /** The context line appears only for a truthy context. */
  function ToolItem(t: ToolEntry): (r: Item)
    ensures |r.lines| == 2 <==> Dashboard.Truthy(t.context)
    ensures |r.lines| >= 1 && r.lines[0] == "Why this is a good fit: " + t.rationale
  {
    Item(t.name + ":", ["Why this is a good fit: " + t.rationale]
      + (if Dashboard.Truthy(t.context) then ["Context: " + t.context.value] else []))
  }

  const NoSdgGoals := Item("No SDG goals identified", [])
  const NoIndicators := Item("No SDG indicators identified", [])
  const NoTools := Item("No relevant tools identified", [])

  /** A file link: its target and its text. */
  datatype Link = Link(href: string, text: string)

  /** The URL section: the links, or the "No file URLs available." note. */
  datatype Urls = Links(links: seq<Link>) | NoUrls

  function FileLinks(files: Option<seq<FileEntry>>): (r: Urls)
    ensures r.NoUrls? <==> !Listed(files)
    ensures r.Links? ==> |r.links| == |files.value|
    ensures r.Links? ==> forall i :: 0 <= i < |r.links| ==>
      r.links[i].href == files.value[i].url && r.links[i].text == OrElse(files.value[i].fileName, "Unnamed File")
  {
    if Listed(files) then
      Links(seq(|files.value|, i requires 0 <= i < |files.value| =>
        Link(files.value[i].url, OrElse(files.value[i].fileName, "Unnamed File"))))
    else NoUrls
  }

  // ---------------------------------------------------------------------
  // The dialog
  // ---------------------------------------------------------------------

  /** The fields of a project the dialog reads; a missing one is `None`. */
  datatype ReportProject = ReportProject(
    name: string, id: Option<string>, projectManager: Option<string>,
    projectManagerEmail: Option<string>, hub: Option<string>, summary: Option<string>,
    objectives: Option<string>, problemsAddressed: Option<string>,
    beneficiaries: Option<string>, anticipatedOutcomes: Option<string>,
    region: Option<string>, donor: Option<string>, fundingSource: Option<string>,
    sdgGoals: Option<seq<SdgEntry>>, sdgIndicators: Option<seq<IndicatorEntry>>,
    relevantTools: Option<seq<ToolEntry>>, fileUrls: Option<seq<FileEntry>>)

  /** The rendered report. */
  datatype Report = Report(
    title: string, fileName: string, manager: string, managerEmail: Option<string>,
    engagementId: string, hub: string, summary: string, objectives: string,
    problems: string, beneficiaries: string, outcomes: string, region: string,
    funding: string, sdgGoals: seq<Item>, indicators: seq<Item>, tools: seq<Item>,
    urls: Urls)

  /** The dialog for a project, or nothing for a missing one. The Hub
      field shows the engagement-ID placeholder text when empty. */
  function Render(p: Option<ReportProject>): (r: Option<Report>)
    ensures r.None? <==> p.None?
  {
    match p
    case None => None
    case Some(q) =>
      Some(Report(
        "Project Report: " + q.name,
        FileName(q.name),
        OrElse(q.projectManager, "Not identified"),
        if Dashboard.Truthy(q.projectManagerEmail) then q.projectManagerEmail else None,
        OrElse(q.id, "No engagement ID available"),
        OrElse(q.hub, "No engagement ID available"),
        OrElse(q.summary, "No summary available"),
        OrElse(q.objectives, "Not identified"),
        OrElse(q.problemsAddressed, "Not identified"),
        OrElse(q.beneficiaries, "Not identified"),
        OrElse(q.anticipatedOutcomes, "Not identified"),
        OrElse(q.region, "Unknown"),
        FundingSource(q.donor, q.fundingSource),
        Items(q.sdgGoals, SdgItem, NoSdgGoals),
        Items(q.sdgIndicators, IndicatorItem, NoIndicators),
        Items(q.relevantTools, ToolItem, NoTools),
        FileLinks(q.fileUrls)))
  }

  /** Every single-value field of a rendered report shows some text, and
      every list shows at least one entry; a list shows its placeholder
      exactly when there is nothing to list. */
  lemma RenderComplete(q: ReportProject)
    ensures var r := Render(Some(q)).value;
      r.manager != "" && r.engagementId != "" && r.hub != "" && r.summary != ""
      && r.objectives != "" && r.problems != "" && r.beneficiaries != ""
      && r.outcomes != "" && r.region != "" && r.funding != ""
    ensures var r := Render(Some(q)).value;
      |r.sdgGoals| >= 1 && |r.indicators| >= 1 && |r.tools| >= 1
    ensures var r := Render(Some(q)).value;
      (r.sdgGoals == [NoSdgGoals] <==> !Listed(q.sdgGoals))
      && (r.indicators == [NoIndicators] <==> !Listed(q.sdgIndicators))
      && (r.tools == [NoTools] <==> !Listed(q.relevantTools))
    ensures EndsWith(Render(Some(q)).value.fileName, ReportSuffix)
    ensures var r := Render(Some(q)).value;
      r.title == "Project Report: " + q.name && r.fileName == FileName(q.name)
      && r.manager == OrElse(q.projectManager, "Not identified")
      && (r.managerEmail.Some? <==> Dashboard.Truthy(q.projectManagerEmail))
      && (r.managerEmail.Some? ==> r.managerEmail == q.projectManagerEmail)
      && r.engagementId == OrElse(q.id, "No engagement ID available")
      && r.hub == OrElse(q.hub, "No engagement ID available")
      && r.summary == OrElse(q.summary, "No summary available")
      && r.objectives == OrElse(q.objectives, "Not identified")
      && r.problems == OrElse(q.problemsAddressed, "Not identified")
      && r.beneficiaries == OrElse(q.beneficiaries, "Not identified")
      && r.outcomes == OrElse(q.anticipatedOutcomes, "Not identified")
      && r.region == OrElse(q.region, "Unknown")
      && r.funding == FundingSource(q.donor, q.fundingSource)
    ensures var r := Render(Some(q)).value;
      r.sdgGoals == Items(q.sdgGoals, SdgItem, NoSdgGoals)
      && r.indicators == Items(q.sdgIndicators, IndicatorItem, NoIndicators)
      && r.tools == Items(q.relevantTools, ToolItem, NoTools)
      && r.urls == FileLinks(q.fileUrls)
  {
    var r := Render(Some(q)).value;
    OrElseShown(q.projectManager, "Not identified");
    OrElseShown(q.id, "No engagement ID available");
    OrElseShown(q.hub, "No engagement ID available");
    OrElseShown(q.summary, "No summary available");
    OrElseShown(q.objectives, "Not identified");
    OrElseShown(q.problemsAddressed, "Not identified");
    OrElseShown(q.beneficiaries, "Not identified");
    OrElseShown(q.anticipatedOutcomes, "Not identified");
    OrElseShown(q.region, "Unknown");
    if Listed(q.sdgGoals) {
      assert |r.sdgGoals[0].lines| == |SdgItem(q.sdgGoals.value[0]).lines| == 2;
    }
    if Listed(q.sdgIndicators) {
      assert |r.indicators[0].lines| == |IndicatorItem(q.sdgIndicators.value[0]).lines| == 2;
    }
    if Listed(q.relevantTools) {
      assert |r.tools[0].lines| == |ToolItem(q.relevantTools.value[0]).lines| >= 1;
    }
  }
}
