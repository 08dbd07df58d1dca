/** `process_document_links`: the batch orchestrator that walks a list of
    document links, skips those the ledger already records as processed,
    runs the per-link processing step, and writes one ledger row per link
    it did not skip. The processing step is an abstract outcome per link.

    The loop as written cannot run: its calls do not bind to the
    signatures of the functions they call (see the call-binding section), so the
    model gives both the loop as written and the loop as evidently
    intended. */
module Batch {
  import opened Wrappers
  import Seqs
  import Ledger

  const DefaultIndexName := "project-documents-index"
  const IndexFailure := "Failed to create index"

  // ---------------------------------------------------------------------
  // Python call binding

  datatype Kwarg = Kwarg(name: string, value: string)

  /** `name` is bound by one of the first `n` positional arguments. */
  predicate BoundPositionally(params: seq<string>, n: nat, name: string) {
    exists i :: 0 <= i < n && i < |params| && params[i] == name
  }

  /** A keyword argument Python rejects with a `TypeError`: an unknown
      name, or one a positional argument already filled. */
  predicate BadKeyword(params: seq<string>, n: nat, kw: Kwarg) {
    kw.name !in params || BoundPositionally(params, n, kw.name)
  }

  /** One of the first `required` parameters (those without a default)
      that neither the `n` positional arguments nor any keyword fills:
      Python rejects the call with a `TypeError`. */
  predicate MissingRequired(params: seq<string>, required: nat, n: nat, kws: seq<Kwarg>) {
    exists i :: n <= i < required && i < |params| && forall j :: 0 <= j < |kws| ==> kws[j].name != params[i]
  }

  function BindPositional(params: seq<string>, args: seq<string>): (m: map<string, string>)
    requires |args| <= |params|
    requires Seqs.Distinct(params)
    ensures forall i :: 0 <= i < |args| ==> params[i] in m && m[params[i]] == args[i]
    ensures forall k :: k in m ==> BoundPositionally(params, |args|, k)
    decreases |args|
  {
    if |args| == 0 then map[]
    else
      var n := |args| - 1;
      var m := BindPositional(params[..n], args[..n]);
      assert forall i :: 0 <= i < n ==> params[..n][i] == params[i];
      forall k | k in m
        ensures BoundPositionally(params, |args|, k)
      {
        var i :| 0 <= i < n && i < |params[..n]| && params[..n][i] == k;
        assert params[i] == k;
      }
      m[params[n] := args[n]]
  }

  function BindKeywords(m: map<string, string>, kws: seq<Kwarg>): (r: map<string, string>)
    ensures forall j :: 0 <= j < |kws| ==> kws[j].name in r
    ensures forall k :: k in m ==> k in r
    ensures forall k :: k in r ==> k in m || exists j :: 0 <= j < |kws| && kws[j].name == k
    decreases |kws|
  {
    if |kws| == 0 then m
    else
      var r := BindKeywords(m[kws[0].name := kws[0].value], kws[1..]);
      assert forall j :: 1 <= j < |kws| ==> kws[j] == kws[1..][j - 1];
      r
  }

  /** How Python binds a call's arguments to a signature whose first
      `required` parameters have no default: the explicitly bound
      parameters, or `None` for a `TypeError`. */
  function BindCall(params: seq<string>, required: nat, args: seq<string>, kws: seq<Kwarg>): (r: Option<map<string, string>>)
    requires Seqs.Distinct(params) && required <= |params|
    ensures r.None? <==>
      || |args| > |params|
      || (exists j :: 0 <= j < |kws| && BadKeyword(params, |args|, kws[j]))
      || MissingRequired(params, required, |args|, kws)
    ensures r.Some? ==> forall i :: 0 <= i < |args| ==> params[i] in r.value
    ensures r.Some? ==> forall i :: 0 <= i < required ==> params[i] in r.value
    ensures r.Some? ==> forall k :: k in r.value ==> k in params
  {
    if |args| > |params| then None
    else if exists j :: 0 <= j < |kws| && BadKeyword(params, |args|, kws[j]) then None
    else if MissingRequired(params, required, |args|, kws) then None
    else
      var r := BindKeywords(BindPositional(params, args), kws);
      forall k | k in r
        ensures k in params
      {
        if k !in BindPositional(params, args) {
          var j :| 0 <= j < |kws| && kws[j].name == k;
          assert !BadKeyword(params, |args|, kws[j]);
        }
      }
      forall i | |args| <= i < required
        ensures params[i] in r
      {
        var j :| 0 <= j < |kws| && kws[j].name == params[i];
      }
      Some(r)
  }

  /** `def process_document(file_link)`. */
  const ProcessParams := ["file_link"]
  const ProcessRequired := 1
  /** `def mark_document_as_processed(file_link, status="success", error_message=None)`. */
  const MarkParams := ["file_link", "status", "error_message"]
  const MarkRequired := 1

  /** The status a bound call of `mark_document_as_processed` records. */
  function BoundStatus(m: map<string, string>): string {
    if "status" in m then m["status"] else Ledger.Success
  }

  /** `process_document(file_link=link, index_name=...)` always raises:
      the function has no `index_name` parameter. */
  lemma ProcessCallRejected(link: string, indexName: string)
    ensures BindCall(ProcessParams, ProcessRequired, [], [Kwarg("file_link", link), Kwarg("index_name", indexName)]).None?
  {
    assert Seqs.Distinct(ProcessParams);
    var kws := [Kwarg("file_link", link), Kwarg("index_name", indexName)];
    assert "index_name"[0] != "file_link"[0];
    assert BadKeyword(ProcessParams, 0, kws[1]);
  }

  /** `mark_document_as_processed(link, index_name)` binds the index name to
      `status`, so the "success" mark records the index name instead. */
  lemma SuccessMarkRecordsIndexName(link: string, indexName: string)
    ensures var r := BindCall(MarkParams, MarkRequired, [link, indexName], []);
      r.Some? && BoundStatus(r.value) == indexName
  {
    assert Seqs.Distinct(MarkParams);
    var m := BindPositional(MarkParams, [link, indexName]);
    assert m["status"] == indexName;
  }

  /** `mark_document_as_processed(link, index_name, status=..., error_message=...)`
      raises: `status` is given both positionally and by keyword. */
  lemma FailureMarkRejected(link: string, indexName: string, msg: string)
    ensures BindCall(MarkParams, MarkRequired, [link, indexName], [Kwarg("status", Ledger.Failure), Kwarg("error_message", msg)]).None?
  {
    assert MarkParams[1] == "status";
    assert BoundPositionally(MarkParams, 2, "status");
    assert BadKeyword(MarkParams, 2, Kwarg("status", Ledger.Failure));
  }

  /** `mark_document_as_processed(status=...)` without the link raises:
      `file_link` has no default and nothing fills it. */
  lemma MarkWithoutLinkRejected(status: string)
    ensures BindCall(MarkParams, MarkRequired, [], [Kwarg("status", status)]).None?
  {
    assert [Kwarg("status", status)][0].name != MarkParams[0];
  }

  /** The evidently intended calls bind, with the intended statuses. */
  lemma IntendedCallsBind(link: string, msg: string)
    ensures BindCall(ProcessParams, ProcessRequired, [link], []).Some?
    ensures var r := BindCall(MarkParams, MarkRequired, [link], []); r.Some? && BoundStatus(r.value) == Ledger.Success
    ensures var r := BindCall(MarkParams, MarkRequired, [link], [Kwarg("status", Ledger.Failure), Kwarg("error_message", msg)]);
      r.Some? && BoundStatus(r.value) == Ledger.Failure
  {
    assert Seqs.Distinct(MarkParams);
    var kws := [Kwarg("status", Ledger.Failure), Kwarg("error_message", msg)];
    forall j | 0 <= j < |kws|
      ensures !BadKeyword(MarkParams, 1, kws[j])
    {
      assert MarkParams[1] == "status" && MarkParams[2] == "error_message";
    }
    var m := BindPositional(MarkParams, [link]);
    assert "status" !in m;
    var r := BindKeywords(m, kws);
    assert r == BindKeywords(m["status" := Ledger.Failure], kws[1..]);
    assert kws[1..] == [Kwarg("error_message", msg)];
    assert r == BindKeywords(m["status" := Ledger.Failure]["error_message" := msg], []);
  }

  // ---------------------------------------------------------------------
  // The loop as intended

  /** The per-link processing step, outside the model. */
  datatype StepOutcome =
    | Produced(description: string)   // a result, filed under `description`
    | NoResult                        // the step returned None
    | Raised(message: string)         // the step raised; `str(e)`

  /** The dictionary `process_document` returns for a processed link: the
      link as its id and the extracted text. */
  function ProcessResult(link: string, text: string): (d: map<string, string>)
    ensures d.Keys == {"file_id", "text_doc_fa"}
    ensures d["file_id"] == link && d["text_doc_fa"] == text
  {
    map["file_id" := link, "text_doc_fa" := text]
  }

  /** `str(KeyError(k))`: the key in quotes. */
  function KeyErrorMessage(k: string): string {
    "'" + k + "'"
  }

  /** `indices_dict[result[key]] = {"index": result[value], ...}` for a
      truthy result. Python evaluates the right-hand side first, so a
      missing `value` key raises before the `key` lookup; the `KeyError` is
      caught by the loop's `except` and becomes a raised step. */
  function ReadResult(result: map<string, string>, key: string, value: string): (o: StepOutcome)
    ensures o.Produced? <==> key in result && value in result
    ensures o.Produced? ==> o.description == result[key]
    ensures value !in result ==> o == Raised(KeyErrorMessage(value))
    ensures value in result && key !in result ==> o == Raised(KeyErrorMessage(key))
  {
    if value !in result then Raised(KeyErrorMessage(value))
    else if key !in result then Raised(KeyErrorMessage(key))
    else Produced(result[key])
  }

  /** As written, the loop reads `description` and `index` from a result
      that holds neither: every document that was processed raises
      `KeyError: 'index'` and is marked failed with that message. */
  lemma ResultLookupAsWritten(link: string, text: string)
    ensures ReadResult(ProcessResult(link, text), "description", "index") == Raised("'index'")
    ensures MarkFor(link, ReadResult(ProcessResult(link, text), "description", "index"))
         == MarkRequest(link, Ledger.Failure, Some("'index'"))
  {
    assert "index" !in ProcessResult(link, text) by {
      assert "index"[0] != "file_id"[0] && "index"[0] != "text_doc_fa"[0];
    }
  }

  /** Reading the keys the result does hold files a processed document
      under its link and marks it `success`. */
  lemma ResultLookupIntended(link: string, text: string)
    ensures ReadResult(ProcessResult(link, text), "file_id", "text_doc_fa") == Produced(link)
    ensures MarkFor(link, ReadResult(ProcessResult(link, text), "file_id", "text_doc_fa"))
         == MarkRequest(link, Ledger.Success, None)
  {
  }

  /** What the remote side does for one link's ledger calls. */
  datatype LinkEnv = LinkEnv(outcome: StepOutcome, checkInfra: Ledger.Infra, markInfra: Ledger.Infra, at: string)

  datatype Verdict = Skipped | Processed | Errored

  datatype MarkRequest = MarkRequest(link: string, status: string, err: Option<string>)

  datatype Summary = Summary(
    verdicts: seq<Verdict>,
    marks: seq<MarkRequest>,
    indices: map<string, string>,   // description -> link
    store: Ledger.Store)

  /** The ledger row requested for a link that was not skipped. */
  function MarkFor(link: string, o: StepOutcome): (m: MarkRequest)
    ensures m.link == link
    ensures m.status == Ledger.Success <==> o.Produced?
    ensures m.status == Ledger.Success ==> m.err.None?
    ensures o.NoResult? ==> m == MarkRequest(link, Ledger.Failure, Some(IndexFailure))
    ensures o.Raised? ==> m == MarkRequest(link, Ledger.Failure, Some(o.message))
  {
    match o
    case Produced(_) => MarkRequest(link, Ledger.Success, None)
    case NoResult => MarkRequest(link, Ledger.Failure, Some(IndexFailure))
    case Raised(msg) => MarkRequest(link, Ledger.Failure, Some(msg))
  }

  /** The skip test: only when checking is on, and only on a ledger hit. */
  function SkipTest(skipCheck: bool, s: Ledger.Store, link: string, env: LinkEnv): (out: (bool, Ledger.Store))
    ensures skipCheck ==> out == (false, s)
    ensures !skipCheck ==> out == Ledger.IsProcessed(s, link, env.checkInfra)
  {
    if skipCheck then (false, s) else Ledger.IsProcessed(s, link, env.checkInfra)
  }

  /** One iteration of the loop: one verdict; one mark request unless the
      link is skipped; the ledger only grows, by at most that mark. */
  function Visit(skipCheck: bool, sum: Summary, link: string, env: LinkEnv): (r: Summary)
    ensures |r.verdicts| == |sum.verdicts| + 1 && r.verdicts[..|sum.verdicts|] == sum.verdicts
    ensures r.verdicts[|sum.verdicts|] == Skipped <==> SkipTest(skipCheck, sum.store, link, env).0
    ensures r.verdicts[|sum.verdicts|] == Processed <==> !SkipTest(skipCheck, sum.store, link, env).0 && env.outcome.Produced?
    ensures r.verdicts[|sum.verdicts|] == Skipped ==> r.marks == sum.marks
    ensures r.verdicts[|sum.verdicts|] != Skipped ==> r.marks == sum.marks + [MarkFor(link, env.outcome)]
    ensures sum.store.rows <= r.store.rows && |r.store.rows| <= |sum.store.rows| + |r.marks| - |sum.marks|
  {
    var (skip, s1) := SkipTest(skipCheck, sum.store, link, env);
    if skip then sum.(verdicts := sum.verdicts + [Skipped], store := s1)
    else
      var m := MarkFor(link, env.outcome);
      var s2 := Ledger.Mark(s1, m.link, m.status, m.err, env.at, env.markInfra).1;
      match env.outcome
      case Produced(d) => Summary(sum.verdicts + [Processed], sum.marks + [m], sum.indices[d := link], s2)
      case _ => Summary(sum.verdicts + [Errored], sum.marks + [m], sum.indices, s2)
  }

  function Run(skipCheck: bool, links: seq<string>, envs: seq<LinkEnv>, s0: Ledger.Store): Summary
    requires |envs| == |links|
    decreases |links|
  {
    if |links| == 0 then Summary([], [], map[], s0)
    else
      var n := |links| - 1;
      Visit(skipCheck, Run(skipCheck, links[..n], envs[..n], s0), links[n], envs[n])
  }

  /** The loop, with its three counters. */
  method ProcessDocumentLinks(links: seq<string>, envs: seq<LinkEnv>, skipCheck: bool, s0: Ledger.Store)
    returns (sum: Summary, processed: nat, errors: nat, skipped: nat)
    requires |envs| == |links|
    ensures sum == Run(skipCheck, links, envs, s0)
    ensures processed + errors + skipped == |links|
    ensures processed == Seqs.Count(sum.verdicts, Processed)
    ensures errors == Seqs.Count(sum.verdicts, Errored)
    ensures skipped == Seqs.Count(sum.verdicts, Skipped)
    ensures |sum.marks| == processed + errors
    ensures skipCheck ==> skipped == 0
  {
    sum := Summary([], [], map[], s0);
    processed, errors, skipped := 0, 0, 0;
    for i := 0 to |links|
      invariant sum == Run(skipCheck, links[..i], envs[..i], s0)
      invariant processed + errors + skipped == i == |sum.verdicts|
      invariant processed == Seqs.Count(sum.verdicts, Processed)
      invariant errors == Seqs.Count(sum.verdicts, Errored)
      invariant skipped == Seqs.Count(sum.verdicts, Skipped)
      invariant |sum.marks| == processed + errors
      invariant skipCheck ==> skipped == 0
    {
      RunSnoc(skipCheck, links, envs, s0, i);
      sum, processed, errors, skipped := VisitCounted(skipCheck, sum, links[i], envs[i], processed, errors, skipped);
    }
    assert links[..|links|] == links;
    assert envs[..|envs|] == envs;
  }

  /** One iteration with its counter updates: the counter of the new
      verdict goes up by one. */
  method VisitCounted(skipCheck: bool, sum: Summary, link: string, env: LinkEnv,
                      processed: nat, errors: nat, skipped: nat)
    returns (r: Summary, processed': nat, errors': nat, skipped': nat)
    requires processed == Seqs.Count(sum.verdicts, Processed)
    requires errors == Seqs.Count(sum.verdicts, Errored)
    requires skipped == Seqs.Count(sum.verdicts, Skipped)
    requires |sum.marks| == processed + errors
    ensures r == Visit(skipCheck, sum, link, env)
    ensures processed' == Seqs.Count(r.verdicts, Processed)
    ensures errors' == Seqs.Count(r.verdicts, Errored)
    ensures skipped' == Seqs.Count(r.verdicts, Skipped)
    ensures |r.marks| == processed' + errors'
    ensures processed' + errors' + skipped' == processed + errors + skipped + 1
    ensures |r.verdicts| == |sum.verdicts| + 1
    ensures skipCheck ==> skipped' == skipped
  {
    VisitCounts(skipCheck, sum, link, env);
    r := Visit(skipCheck, sum, link, env);
    processed', errors', skipped' := processed, errors, skipped;
    var v := r.verdicts[|sum.verdicts|];
    if v == Skipped {
      skipped' := skipped + 1;
    } else if v == Processed {
      processed' := processed + 1;
    } else {
      errors' := errors + 1;
    }
  }

  /** The counters move by one visit: the new verdict is counted once, and
      a mark is requested unless the link was skipped. */
  lemma VisitCounts(skipCheck: bool, sum: Summary, link: string, env: LinkEnv)
    ensures var r := Visit(skipCheck, sum, link, env); var v := r.verdicts[|sum.verdicts|];
      && r.verdicts == sum.verdicts + [v]
      && Seqs.Count(r.verdicts, Processed) == Seqs.Count(sum.verdicts, Processed) + (if v == Processed then 1 else 0)
      && Seqs.Count(r.verdicts, Errored) == Seqs.Count(sum.verdicts, Errored) + (if v == Errored then 1 else 0)
      && Seqs.Count(r.verdicts, Skipped) == Seqs.Count(sum.verdicts, Skipped) + (if v == Skipped then 1 else 0)
      && |r.marks| == |sum.marks| + (if v == Skipped then 0 else 1)
      && (skipCheck ==> v != Skipped)
  {
    var r := Visit(skipCheck, sum, link, env);
    var v := r.verdicts[|sum.verdicts|];
    assert r.verdicts == sum.verdicts + [v];
    Seqs.CountSnoc(sum.verdicts, v, Processed);
    Seqs.CountSnoc(sum.verdicts, v, Errored);
    Seqs.CountSnoc(sum.verdicts, v, Skipped);
  }

  lemma RunSnoc(skipCheck: bool, links: seq<string>, envs: seq<LinkEnv>, s0: Ledger.Store, i: nat)
    requires |envs| == |links| && i < |links|
    ensures Run(skipCheck, links[..i + 1], envs[..i + 1], s0)
         == Visit(skipCheck, Run(skipCheck, links[..i], envs[..i], s0), links[i], envs[i])
  {
    assert links[..i + 1][..i] == links[..i];
    assert envs[..i + 1][..i] == envs[..i];
  }

  /** The store the loop sees when it reaches link `i`. */
  function StoreBefore(skipCheck: bool, links: seq<string>, envs: seq<LinkEnv>, s0: Ledger.Store, i: nat): Ledger.Store
    requires |envs| == |links| && i <= |links|
  {
    Run(skipCheck, links[..i], envs[..i], s0).store
  }

  /** Link by link: link `i` is skipped exactly when checking is on and the
      ledger reports it processed; every other link requests exactly one
      mark, `success` iff its step produced a result, and the marks follow
      the links in order. */
  lemma RunDiscipline(skipCheck: bool, links: seq<string>, envs: seq<LinkEnv>, s0: Ledger.Store, i: nat)
    requires |envs| == |links| && i < |links|
    ensures var sum := Run(skipCheck, links, envs, s0);
      var before := Run(skipCheck, links[..i], envs[..i], s0);
      && |sum.verdicts| == |links|
      && (sum.verdicts[i] == Skipped <==> SkipTest(skipCheck, before.store, links[i], envs[i]).0)
      && (sum.verdicts[i] == Processed <==> !SkipTest(skipCheck, before.store, links[i], envs[i]).0 && envs[i].outcome.Produced?)
      && (sum.verdicts[i] != Skipped ==> |before.marks| < |sum.marks| && sum.marks[|before.marks|] == MarkFor(links[i], envs[i].outcome))
  {
    var before := Run(skipCheck, links[..i], envs[..i], s0);
    var at := Run(skipCheck, links[..i + 1], envs[..i + 1], s0);
    RunSnoc(skipCheck, links, envs, s0, i);
    RunLength(skipCheck, links, envs, s0);
    RunLength(skipCheck, links[..i], envs[..i], s0);
    RunPrefix(skipCheck, links, envs, s0, i + 1);
    assert at.verdicts[i] == Run(skipCheck, links, envs, s0).verdicts[i];
  }

  /** What the loop has done after the first `m` links is a prefix of what
      it does over all of them: later links only append verdicts and marks. */
  lemma {:induction false} RunPrefix(skipCheck: bool, links: seq<string>, envs: seq<LinkEnv>, s0: Ledger.Store, m: nat)
    requires |envs| == |links| && m <= |links|
    ensures var part := Run(skipCheck, links[..m], envs[..m], s0);
      var sum := Run(skipCheck, links, envs, s0);
      part.verdicts <= sum.verdicts && part.marks <= sum.marks
    decreases |links|
  {
    if m == |links| {
      assert links[..m] == links && envs[..m] == envs;
    } else {
      var n := |links| - 1;
      assert links[..n][..m] == links[..m] && envs[..n][..m] == envs[..m];
      RunPrefix(skipCheck, links[..n], envs[..n], s0, m);
      var prev := Run(skipCheck, links[..n], envs[..n], s0);
      var sum := Visit(skipCheck, prev, links[n], envs[n]);
      assert prev.verdicts <= sum.verdicts;
      assert prev.marks <= sum.marks;
    }
  }

  lemma {:induction false} RunLength(skipCheck: bool, links: seq<string>, envs: seq<LinkEnv>, s0: Ledger.Store)
    requires |envs| == |links|
    ensures |Run(skipCheck, links, envs, s0).verdicts| == |links|
    ensures |Run(skipCheck, links, envs, s0).marks| == |links| - Seqs.Count(Run(skipCheck, links, envs, s0).verdicts, Skipped)
    decreases |links|
  {
    if |links| > 0 {
      var n := |links| - 1;
      var prev := Run(skipCheck, links[..n], envs[..n], s0);
      RunLength(skipCheck, links[..n], envs[..n], s0);
      var sum := Run(skipCheck, links, envs, s0);
      assert sum.verdicts == prev.verdicts + [sum.verdicts[n]];
      Seqs.CountSnoc(prev.verdicts, sum.verdicts[n], Skipped);
    }
  }

  /** The loop only appends to the ledger: at most one row per link it did
      not skip. */
  lemma {:induction false} RunAppendsRows(skipCheck: bool, links: seq<string>, envs: seq<LinkEnv>, s0: Ledger.Store)
    requires |envs| == |links|
    ensures var sum := Run(skipCheck, links, envs, s0);
      s0.rows <= sum.store.rows && |sum.store.rows| <= |s0.rows| + |sum.marks|
    decreases |links|
  {
    if |links| > 0 {
      var n := |links| - 1;
      RunAppendsRows(skipCheck, links[..n], envs[..n], s0);
    }
  }

  /** A link whose earlier run left a `success` row is skipped by any later
      run that checks the ledger and can query it. */
  lemma SkipsProcessed(links: seq<string>, envs: seq<LinkEnv>, s0: Ledger.Store, i: nat)
    requires |envs| == |links| && i < |links|
    requires Ledger.HasSuccess(s0.rows, links[i])
    requires var infra := envs[i].checkInfra; infra.client && infra.queryOk && Ledger.SetupSucceeds(infra)
    ensures |Run(false, links, envs, s0).verdicts| == |links|
    ensures Run(false, links, envs, s0).verdicts[i] == Skipped
  {
    RunLength(false, links, envs, s0);
    RunDiscipline(false, links, envs, s0, i);
    RunAppendsRows(false, links[..i], envs[..i], s0);
    var before := Run(false, links[..i], envs[..i], s0);
    var j :| 0 <= j < |s0.rows| && s0.rows[j].fileLink == links[i] && s0.rows[j].status == Ledger.Success;
    assert before.store.rows[j] == s0.rows[j];
  }

  // ---------------------------------------------------------------------
  // The loop as written

  datatype AsWrittenResult =
    | Completed(verdicts: seq<Verdict>, store: Ledger.Store)
    | Aborted(at: nat, store: Ledger.Store)   // an exception escaped the loop

  /** The loop as written: skipped links are skipped; at the first link
      that is not, `process_document` rejects its keyword argument, and the
      failure mark in the `except` handler rejects its own arguments, so the
      exception leaves the loop before any row is written. */
  function RunAsWritten(skipCheck: bool, links: seq<string>, envs: seq<LinkEnv>, s: Ledger.Store, from: nat)
    : (r: AsWrittenResult)
    requires |envs| == |links| && from <= |links|
    ensures r.store.rows == s.rows
    ensures r.Aborted? ==> from <= r.at < |links|
    decreases |links| - from
  {
    if from == |links| then Completed([], s)
    else
      var (skip, s1) := SkipTest(skipCheck, s, links[from], envs[from]);
      if !skip then Aborted(from, s1)
      else match RunAsWritten(skipCheck, links, envs, s1, from + 1)
        case Completed(vs, s2) => Completed([Skipped] + vs, s2)
        case Aborted(k, s2) => Aborted(k, s2)
  }

  /** As written, the loop never writes a ledger row and never processes a
      link: it completes only when it skips every link, and with the check
      switched off it aborts on the first link. */
  lemma AsWrittenNeverProcesses(skipCheck: bool, links: seq<string>, envs: seq<LinkEnv>, s0: Ledger.Store)
    requires |envs| == |links|
    ensures RunAsWritten(skipCheck, links, envs, s0, 0).store.rows == s0.rows
    ensures skipCheck && |links| > 0 ==> RunAsWritten(skipCheck, links, envs, s0, 0) == Aborted(0, s0)
    ensures RunAsWritten(skipCheck, links, envs, s0, 0).Completed? ==>
      forall i :: 0 <= i < |RunAsWritten(skipCheck, links, envs, s0, 0).verdicts| ==>
        RunAsWritten(skipCheck, links, envs, s0, 0).verdicts[i] == Skipped
  {
    AsWrittenOnlySkips(skipCheck, links, envs, s0, 0);
  }

  lemma {:induction false} AsWrittenOnlySkips(skipCheck: bool, links: seq<string>, envs: seq<LinkEnv>, s: Ledger.Store, from: nat)
    requires |envs| == |links| && from <= |links|
    ensures var r := RunAsWritten(skipCheck, links, envs, s, from);
      r.Completed? ==> |r.verdicts| == |links| - from && forall i :: 0 <= i < |r.verdicts| ==> r.verdicts[i] == Skipped
    decreases |links| - from
  {
    if from < |links| {
      var (skip, s1) := SkipTest(skipCheck, s, links[from], envs[from]);
      if skip {
        AsWrittenOnlySkips(skipCheck, links, envs, s1, from + 1);
      }
    }
  }

  /** The discrepancy: with the check off, the intended loop records one
      mark per link, while the loop as written aborts at once. */
  lemma AsWrittenDiffers(links: seq<string>, envs: seq<LinkEnv>, s0: Ledger.Store)
    requires |envs| == |links| && |links| > 0
    ensures RunAsWritten(true, links, envs, s0, 0).Aborted?
    ensures |Run(true, links, envs, s0).marks| == |links|
  {
    AsWrittenNeverProcesses(true, links, envs, s0);
    RunLength(true, links, envs, s0);
    NoSkipsWithoutCheck(links, envs, s0);
  }

  lemma {:induction false} NoSkipsWithoutCheck(links: seq<string>, envs: seq<LinkEnv>, s0: Ledger.Store)
    requires |envs| == |links|
    ensures Seqs.Count(Run(true, links, envs, s0).verdicts, Skipped) == 0
    decreases |links|
  {
    if |links| > 0 {
      var n := |links| - 1;
      var prev := Run(true, links[..n], envs[..n], s0);
      NoSkipsWithoutCheck(links[..n], envs[..n], s0);
      var sum := Run(true, links, envs, s0);
      assert sum.verdicts == prev.verdicts + [sum.verdicts[|sum.verdicts| - 1]];
      Seqs.CountSnoc(prev.verdicts, sum.verdicts[|sum.verdicts| - 1], Skipped);
    }
  }
}
