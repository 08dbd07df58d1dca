/** The legacy Flask-era pipeline module: its own metadata sanitizer, its
    own ledger functions (with a folder and an index name per row), the
    per-document vector-index builder and a batch loop capped at two links.
    Its link dispatch, GCS split, file-id extractor and downloads are the
    same text as the document processor's and reuse that model. */
module Legacy {
  import opened Wrappers
  import opened Strs
  import Seqs
  import Metadata
  import Processor
  import Ledger
  import Batch

  // ---------------------------------------------------------------------
  // sanitize_metadata_for_chroma (legacy variant)

  /** One value as the legacy loop converts it: `None` and scalars are
      kept, everything else becomes `str(value)`. */
  function SanitizeValue(v: Metadata.PyValue, str: Metadata.Str): (r: Metadata.PyValue)
    ensures r.PyNone? || Metadata.IsScalar(r)
    ensures v.PyNone? || Metadata.IsScalar(v) ==> r == v
    ensures !(v.PyNone? || Metadata.IsScalar(v)) ==> r == Metadata.PyStr(str(v))
  {
    if v.PyNone? || Metadata.IsScalar(v) then v else Metadata.PyStr(str(v))
  }

  function Sanitize(metadata: Option<map<string, Metadata.PyValue>>, str: Metadata.Str)
    : (r: map<string, Metadata.PyValue>)
    ensures metadata.None? ==> r == map[]
    ensures metadata.Some? ==> r.Keys == metadata.value.Keys
    ensures forall k :: k in r ==> r[k].PyNone? || Metadata.IsScalar(r[k])
    ensures metadata.Some? ==> forall k :: k in r ==> r[k] == SanitizeValue(metadata.value[k], str)
  {
    match metadata
    case None => map[]
    case Some(m) => map k | k in m :: SanitizeValue(m[k], str)
  }

  /** The two sanitizers agree on scalars and on other objects, and differ
      exactly on `None` (kept here, `""` in the utility) and on containers
      (always `str` here, JSON text there when it encodes). */
  lemma SanitizersCompared(m: map<string, Metadata.PyValue>, k: string, dumps: Metadata.Dumps, str: Metadata.Str)
    requires k in m
    ensures var legacy := Sanitize(Some(m), str)[k];
      var utility := Metadata.Sanitize(Some(m), dumps, str)[k];
      (Metadata.IsScalar(m[k]) || m[k].PyObject? ==> legacy == utility) &&
      (m[k].PyNone? ==> legacy == Metadata.PyNone && utility == Metadata.PyStr("")) &&
      (Metadata.IsContainer(m[k]) ==> legacy == Metadata.PyStr(str(m[k])) &&
                                      (utility == legacy <==> dumps(m[k]).GetOr(str(m[k])) == str(m[k])))
  {
  }

  // ---------------------------------------------------------------------
  // Ledger functions (legacy variant)

  /** A legacy ledger row: no timestamp, but a folder and an index name. */
  datatype Row = Row(fileLink: string, folderName: string, indexName: string, status: string, errorMessage: Option<string>)

  /** The module-level client and table flag are computed once at import
      and never change afterwards. */
  datatype Store = Store(client: bool, tableExists: bool, rows: seq<Row>)

  /** A `success` row for the link, restricted to the folder and the index
      name when those are truthy. */
  predicate Recorded(rows: seq<Row>, link: string, folderName: Option<string>, indexName: Option<string>) {
    exists i :: 0 <= i < |rows| && rows[i].fileLink == link && rows[i].status == Ledger.Success &&
      (folderName.None? || folderName.value == "" || rows[i].folderName == folderName.value) &&
      (indexName.None? || indexName.value == "" || rows[i].indexName == indexName.value)
  }

  /** How the body of the check ends: a returned answer, or one of the two
      exceptions its final `except` catches. */
  datatype CheckStep = Returned(answer: bool) | NameErrorRaised | QueryRaised

  /** The body of `is_document_already_processed` up to its final
      `except`. `folderName` is the binding the body looks up for
      `folder_name`: `None` when no such name is bound. `queryOk` says
      whether the count query and its result succeed. */
  function CheckBody(s: Store, link: string, folderName: Option<Option<string>>, indexName: Option<string>,
                     queryOk: bool): (r: CheckStep)
    ensures r.NameErrorRaised? <==> s.client && s.tableExists && folderName.None?
    ensures r.QueryRaised? <==> s.client && s.tableExists && folderName.Some? && !queryOk
    ensures r.Returned? ==>
      (r.answer <==> s.client && s.tableExists && Recorded(s.rows, link, folderName.value, indexName))
  {
    if !s.client || !s.tableExists then Returned(false)
    else match folderName
      case None => NameErrorRaised
      case Some(f) => if !queryOk then QueryRaised else Returned(Recorded(s.rows, link, f, indexName))
  }

  /** The final `except` turns either exception into "not processed". */
  function CheckAnswer(step: CheckStep): bool {
    match step
    case Returned(b) => b
    case _ => false
  }

  /** The legacy check as written: the function has no `folder_name`
      parameter and the module binds no such global, so past the
      availability guard the lookup raises `NameError`, which the final
      `except` turns into "not processed". The rows are never consulted. */
  function IsProcessedAsWritten(s: Store, link: string, indexName: Option<string>, queryOk: bool): (r: bool)
    ensures !r
  {
    CheckAnswer(CheckBody(s, link, None, indexName, queryOk))
  }

  /** The check evidently intended, with no folder restriction: a
      `success` row for the link, under the index name when one is given;
      a failing query reads as "not processed". */
  function IsProcessedIntended(s: Store, link: string, indexName: Option<string>, queryOk: bool): (r: bool)
    ensures r <==> s.client && s.tableExists && queryOk && Recorded(s.rows, link, None, indexName)
  {
    CheckAnswer(CheckBody(s, link, Some(None), indexName, queryOk))
  }

  /** `mark_document_as_processed(file_link, folder_name, index_name,
      status="success", error_message=None)`: one row on success, nothing
      otherwise. */
  function Mark(s: Store, link: string, folder: string, indexName: string, status: string,
                err: Option<string>, insert: Ledger.Insert): (out: (bool, Store))
    ensures out.0 <==> s.client && s.tableExists && insert == Ledger.InsertOk
    ensures out.0 ==> out.1 == s.(rows := s.rows + [Row(link, folder, indexName, status, Ledger.ErrorColumn(err))])
    ensures !out.0 ==> out.1 == s
  {
    if !s.client || !s.tableExists then (false, s)
    else if insert != Ledger.InsertOk then (false, s)
    else (true, s.(rows := s.rows + [Row(link, folder, indexName, status, Ledger.ErrorColumn(err))]))
  }

  /** A successful `success` mark is found by the intended check under the
      same index name when the query succeeds, and is never found by the
      check as written, nor by a failing query. */
  lemma MarkThenCheck(s: Store, link: string, folder: string, indexName: string, err: Option<string>, queryOk: bool)
    requires s.client && s.tableExists
    ensures var s1 := Mark(s, link, folder, indexName, Ledger.Success, err, Ledger.InsertOk).1;
      (IsProcessedIntended(s1, link, Some(indexName), queryOk) <==> queryOk) &&
      (IsProcessedIntended(s1, link, None, queryOk) <==> queryOk) &&
      !IsProcessedAsWritten(s1, link, Some(indexName), queryOk)
  {
    var s1 := Mark(s, link, folder, indexName, Ledger.Success, err, Ledger.InsertOk).1;
    assert s1.rows[|s1.rows| - 1].fileLink == link;
  }

  // ---------------------------------------------------------------------
  // create_modular_vector_index

  /** The per-document index name: the base name, a dash, and the link's
      last path component. */
  function DocumentIndexName(indexName: string, link: string): (r: string)
    ensures StartsWith(r, indexName + "-")
    ensures EndsWith(r, Basename(link)) && EndsWith(link, Basename(link))
    ensures '/' !in r[|indexName| + 1..]
  {
    var r := indexName + "-" + Basename(link);
    assert r[..|indexName| + 1] == indexName + "-";
    assert r[|indexName| + 1..] == Basename(link);
    assert r[|r| - |Basename(link)|..] == Basename(link);
    r
  }

  /** What the document reader and the index builder do. */
  datatype Load = Loaded(docs: nat) | LoadRaises
  datatype IndexEnv = IndexEnv(fetch: Processor.Env, load: Load, buildOk: bool)

  /** An index built from `docs` documents. */
  datatype Built = Built(index: Option<nat>, description: string)

  /** The index, the description, and the temporary files left behind. */
  datatype IndexResult = IndexResult(built: Option<Built>, files: set<string>)

  /** `create_modular_vector_index` with the vector store available:
      download, read, build an index only when there are documents, and
      remove the returned temporary file on the success and the error
      path alike; a file the route created but did not return stays.
      `storeResolves` says whether the vector-store class the function names
      exists; in the module as written it is never imported, so the
      `NameError` ends the call before anything is downloaded. */
  function CreateIndex(link: string, storeResolves: bool, env: IndexEnv, files: set<string>): (r: IndexResult)
    ensures !storeResolves ==> r == IndexResult(None, files)
    ensures storeResolves && Processor.CreateTempfilePath(link, env.fetch).Fetched? ==>
      var p := Processor.CreateTempfilePath(link, env.fetch).path;
      p !in r.files && r.files == files - {p}
    ensures storeResolves && Processor.CreateTempfilePath(link, env.fetch).Abandoned? ==>
      r.files == files + {Processor.CreateTempfilePath(link, env.fetch).path}
    ensures !storeResolves || !Processor.CreateTempfilePath(link, env.fetch).Created() ==> r.files == files
    ensures r.built.Some? <==>
      storeResolves && Processor.CreateTempfilePath(link, env.fetch).Fetched? && env.load.Loaded? &&
      (env.load.docs > 0 ==> env.buildOk)
    ensures r.built.Some? ==> r.built.value.description == "Document: " + Basename(link)
    ensures r.built.Some? ==> (r.built.value.index.Some? <==> env.load.docs > 0)
  {
    if !storeResolves then IndexResult(None, files)
    else match Processor.CreateTempfilePath(link, env.fetch)
      case Fetched(p) =>
        var during := files + {p};
        var after := during - {p};
        (match env.load
         case LoadRaises => IndexResult(None, after)
         case Loaded(n) =>
           if n == 0 then IndexResult(Some(Built(None, "Document: " + Basename(link))), after)
           else if !env.buildOk then IndexResult(None, after)
           else IndexResult(Some(Built(Some(n), "Document: " + Basename(link))), after))
      case Abandoned(p) =>
        // the route returned None: reading it fails, and the cleanup
        // skips the file the route created
        IndexResult(None, files + {p})
      case _ =>
        // no temporary path: reading `None` fails and nothing is removed
        IndexResult(None, files)
  }

  // ---------------------------------------------------------------------
  // process_document_links (legacy variant)

  /** `def is_document_already_processed(file_link, index_name=None)`. */
  const CheckParams := ["file_link", "index_name"]
  const CheckRequired := 1
  /** `def mark_document_as_processed(file_link, folder_name, index_name, status="success", error_message=None)`. */
  const MarkParams := ["file_link", "folder_name", "index_name", "status", "error_message"]
  const MarkRequired := 3
  /** `def create_modular_vector_index(file_link, folder_name=..., index_name=...)`. */
  const CreateParams := ["file_link", "folder_name", "index_name"]
  const CreateRequired := 1

  const VisitCap := 2

  /** The ledger check at the top of the loop passes three arguments to a
      two-parameter function: a `TypeError` outside the `try`. */
  lemma CheckCallRejected(link: string, folder: string, name: string)
    ensures Batch.BindCall(CheckParams, CheckRequired, [link, folder, name], []).None?
  {
    assert Seqs.Distinct(CheckParams);
  }

  /** The check called with the link and the index name only binds both. */
  lemma CheckCallBinds(link: string, name: string)
    ensures var r := Batch.BindCall(CheckParams, CheckRequired, [link, name], []);
      r.Some? && r.value == map["file_link" := link, "index_name" := name]
  {
    assert Seqs.Distinct(CheckParams);
    var m := Batch.BindPositional(CheckParams, [link, name]);
    forall k | k in m
      ensures k == "file_link" || k == "index_name"
    {
      assert Batch.BoundPositionally(CheckParams, 2, k);
    }
    assert [link, name][0] == link && [link, name][1] == name;
    assert "file_link" in m && m["file_link"] == link;
    assert "index_name" in m && m["index_name"] == name;
    assert m.Keys == {"file_link", "index_name"};
    assert m == map["file_link" := link, "index_name" := name];
    assert Batch.BindKeywords(m, []) == m;
  }

  /** The keyword-only call of `create_modular_vector_index` binds. */
  lemma CreateCallBinds(link: string, folder: string, name: string)
    ensures Batch.BindCall(CreateParams, CreateRequired, [], [Batch.Kwarg("file_link", link), Batch.Kwarg("folder_name", folder),
                                              Batch.Kwarg("index_name", name)]).Some?
  {
    assert Seqs.Distinct(CreateParams);
    var kws := [Batch.Kwarg("file_link", link), Batch.Kwarg("folder_name", folder), Batch.Kwarg("index_name", name)];
    forall j | 0 <= j < |kws|
      ensures !Batch.BadKeyword(CreateParams, 0, kws[j])
    {
      assert kws[j].name == CreateParams[j];
    }
    assert kws[0].name == CreateParams[0];
  }

  /** The success mark leaves `status` to its default, `success`. */
  lemma SuccessMarkBinds(link: string, folder: string, name: string)
    ensures var r := Batch.BindCall(MarkParams, MarkRequired, [link, folder, name], []);
      r.Some? && "status" !in r.value
  {
    assert Seqs.Distinct(MarkParams);
    assert "status"[0] != "file_link"[0] && "status"[0] != "folder_name"[0] && "status"[0] != "index_name"[0];
    assert "status" == MarkParams[3];
    assert "status" != MarkParams[0] && "status" != MarkParams[1] && "status" != MarkParams[2];
  }

  /** The failure marks bind `status` to `failed` and pass the message. */
  lemma FailureMarkBinds(link: string, folder: string, name: string, msg: string)
    ensures var r := Batch.BindCall(MarkParams, MarkRequired, [link, folder, name],
                                    [Batch.Kwarg("status", Ledger.Failure), Batch.Kwarg("error_message", msg)]);
      r.Some? && "status" in r.value && r.value["status"] == Ledger.Failure &&
      "error_message" in r.value && r.value["error_message"] == msg
  {
    assert Seqs.Distinct(MarkParams);
    var fkws := [Batch.Kwarg("status", Ledger.Failure), Batch.Kwarg("error_message", msg)];
    forall j | 0 <= j < |fkws|
      ensures !Batch.BadKeyword(MarkParams, 3, fkws[j])
    {
      assert fkws[j].name == MarkParams[3 + j];
      assert fkws[j].name[0] == 's' || fkws[j].name[0] == 'e';
    }
    var m := Batch.BindPositional(MarkParams, [link, folder, name]);
    var r := Batch.BindKeywords(m, fkws);
    assert r == Batch.BindKeywords(m["status" := Ledger.Failure], fkws[1..]);
    assert fkws[1..] == [Batch.Kwarg("error_message", msg)];
    assert r == Batch.BindKeywords(m["status" := Ledger.Failure]["error_message" := msg], []);
  }

  datatype Counters = Counters(processed: nat, errors: nat, skipped: nat)

  datatype LoopState = LoopState(indices: map<string, (nat, string)>, counters: Counters, store: Store, files: set<string>)

  datatype LegacyOutcome =
    | Finished(state: LoopState)
    | Aborted(store: Store, files: set<string>)   // the TypeError from the ledger check

  /** The loop body for one link when the ledger check is skipped. */
  function VisitLink(st: LoopState, link: string, folder: string, name: string, storeResolves: bool,
                     env: IndexEnv, insert: Ledger.Insert): (r: LoopState)
    ensures r.counters.skipped == st.counters.skipped
    ensures r.counters.processed + r.counters.errors == st.counters.processed + st.counters.errors + 1
    ensures var b := CreateIndex(link, storeResolves, env, st.files).built;
      var ok := b.Some? && b.value.index.Some?;
      (ok ==> r.counters.processed == st.counters.processed + 1 &&
              r.indices == st.indices[b.value.description := (b.value.index.value, link)] &&
              r.store == Mark(st.store, link, folder, name, Ledger.Success, None, insert).1) &&
      (!ok ==> r.counters.errors == st.counters.errors + 1 && r.indices == st.indices &&
               r.store == Mark(st.store, link, folder, name, Ledger.Failure, Some(Batch.IndexFailure), insert).1)
    ensures r.files == CreateIndex(link, storeResolves, env, st.files).files
  {
    var res := CreateIndex(link, storeResolves, env, st.files);
    var c := st.counters;
    if res.built.Some? && res.built.value.index.Some? && res.built.value.description != "" then
      var b := res.built.value;
      LoopState(st.indices[b.description := (b.index.value, link)],
                c.(processed := c.processed + 1),
                Mark(st.store, link, folder, name, Ledger.Success, None, insert).1, res.files)
    else
      LoopState(st.indices, c.(errors := c.errors + 1),
                Mark(st.store, link, folder, name, Ledger.Failure, Some(Batch.IndexFailure), insert).1, res.files)
  }

  function VisitAll(st: LoopState, links: seq<string>, folder: string, name: string, storeResolves: bool,
                    envs: seq<IndexEnv>, inserts: seq<Ledger.Insert>): (r: LoopState)
    requires |envs| == |links| && |inserts| == |links|
    decreases |links|
  {
    if |links| == 0 then st
    else VisitAll(VisitLink(st, links[0], folder, name, storeResolves, envs[0], inserts[0]),
                  links[1..], folder, name, storeResolves, envs[1..], inserts[1..])
  }

  /** Every visited link is counted once, as processed or as an error;
      nothing is ever skipped; rows are only appended, at most one per
      link. */
  lemma {:induction false} VisitAllCounts(st: LoopState, links: seq<string>, folder: string, name: string,
                                          storeResolves: bool, envs: seq<IndexEnv>, inserts: seq<Ledger.Insert>)
    requires |envs| == |links| && |inserts| == |links|
    ensures var r := VisitAll(st, links, folder, name, storeResolves, envs, inserts);
      r.counters.skipped == st.counters.skipped &&
      r.counters.processed + r.counters.errors == st.counters.processed + st.counters.errors + |links| &&
      st.store.rows <= r.store.rows && |r.store.rows| <= |st.store.rows| + |links| &&
      r.store.client == st.store.client && r.store.tableExists == st.store.tableExists
    decreases |links|
  {
    if |links| > 0 {
      var st1 := VisitLink(st, links[0], folder, name, storeResolves, envs[0], inserts[0]);
      VisitAllCounts(st1, links[1..], folder, name, storeResolves, envs[1..], inserts[1..]);
    }
  }

  /** With the vector-store name unresolved, as in the module as written,
      no link is ever processed: no index is collected, no temporary file is
      created, and every row written is a `failed` row carrying the
      "Failed to create index" message. */
  lemma {:induction false} VisitAllAsWritten(st: LoopState, links: seq<string>, folder: string, name: string,
                                             envs: seq<IndexEnv>, inserts: seq<Ledger.Insert>)
    requires |envs| == |links| && |inserts| == |links|
    ensures var r := VisitAll(st, links, folder, name, false, envs, inserts);
      r.counters.processed == st.counters.processed && r.indices == st.indices && r.files == st.files &&
      st.store.rows <= r.store.rows &&
      forall i :: |st.store.rows| <= i < |r.store.rows| ==>
        r.store.rows[i].status == Ledger.Failure && r.store.rows[i].errorMessage == Some(Batch.IndexFailure)
    decreases |links|
  {
    if |links| > 0 {
      var st1 := VisitLink(st, links[0], folder, name, false, envs[0], inserts[0]);
      VisitAllAsWritten(st1, links[1..], folder, name, envs[1..], inserts[1..]);
      var r := VisitAll(st1, links[1..], folder, name, false, envs[1..], inserts[1..]);
      assert Ledger.ErrorColumn(Some(Batch.IndexFailure)) == Some(Batch.IndexFailure);
      forall i | |st.store.rows| <= i < |r.store.rows|
        ensures r.store.rows[i].status == Ledger.Failure && r.store.rows[i].errorMessage == Some(Batch.IndexFailure)
      {
        if i < |st1.store.rows| {
          assert r.store.rows[i] == st1.store.rows[i];
        }
      }
    }
  }

  /** The loop body evidently intended with the ledger check on: the check
      is called with the link and the index name, and a link it finds is
      skipped. */
  function VisitChecked(st: LoopState, link: string, folder: string, name: string, storeResolves: bool,
                        queryOk: bool, env: IndexEnv, insert: Ledger.Insert): (r: LoopState)
    ensures r.counters.skipped + r.counters.processed + r.counters.errors ==
            st.counters.skipped + st.counters.processed + st.counters.errors + 1
    ensures r.counters.skipped == st.counters.skipped + 1 <==> IsProcessedIntended(st.store, link, Some(name), queryOk)
    ensures IsProcessedIntended(st.store, link, Some(name), queryOk) ==>
      r.store == st.store && r.indices == st.indices && r.files == st.files
    ensures !IsProcessedIntended(st.store, link, Some(name), queryOk) ==>
      r == VisitLink(st, link, folder, name, storeResolves, env, insert)
    ensures st.store.rows <= r.store.rows
  {
    if IsProcessedIntended(st.store, link, Some(name), queryOk) then
      st.(counters := st.counters.(skipped := st.counters.skipped + 1))
    else VisitLink(st, link, folder, name, storeResolves, env, insert)
  }

  /** With the corrected check, visiting a link a second time after it was
      indexed and recorded skips it when the second query succeeds: no
      second index, no second row. When that query fails, the link is
      visited again. */
  lemma CheckedRevisitSkips(st: LoopState, link: string, folder: string, name: string, query1: bool, query2: bool,
                            env: IndexEnv, env2: IndexEnv, insert2: Ledger.Insert)
    requires st.store.client && st.store.tableExists
    requires var b := CreateIndex(link, true, env, st.files).built; b.Some? && b.value.index.Some?
    ensures var st1 := VisitChecked(st, link, folder, name, true, query1, env, Ledger.InsertOk);
      var st2 := VisitChecked(st1, link, folder, name, true, query2, env2, insert2);
      (query2 ==>
        st2.store == st1.store && st2.indices == st1.indices && st2.files == st1.files &&
        st2.counters.skipped == st1.counters.skipped + 1) &&
      (!query2 ==> st2 == VisitLink(st1, link, folder, name, true, env2, insert2))
  {
    if !IsProcessedIntended(st.store, link, Some(name), query1) {
      MarkThenCheck(st.store, link, folder, name, None, true);
    } else {
      assert Recorded(st.store.rows, link, None, Some(name));
    }
  }

  /** The legacy `process_document_links`: at most the first two links are
      visited; with the ledger check enabled the first visit raises, so
      the loop never skips anything and finishes only when the check is
      disabled or there is nothing to visit. */
  function ProcessLinks(links: seq<string>, folder: string, indexName: string, skipCheck: bool,
                        storeResolves: bool, envs: seq<IndexEnv>, inserts: seq<Ledger.Insert>,
                        s: Store, files: set<string>): (r: LegacyOutcome)
    requires |envs| == |links| && |inserts| == |links|
    ensures r.Aborted? <==> !skipCheck && |links| > 0
    ensures r.Aborted? ==> r.store == s && r.files == files
    ensures r.Finished? ==>
      var c := r.state.counters;
      c.skipped == 0 && c.processed + c.errors == Seqs.Min(VisitCap, |links|) &&
      s.rows <= r.state.store.rows && |r.state.store.rows| <= |s.rows| + VisitCap
    ensures r.Finished? && !storeResolves ==>
      r.state.counters.processed == 0 && r.state.indices == map[] && r.state.files == files &&
      forall i :: |s.rows| <= i < |r.state.store.rows| ==> r.state.store.rows[i].status == Ledger.Failure
  {
    var visited := Seqs.Take(links, VisitCap);
    var start := LoopState(map[], Counters(0, 0, 0), s, files);
    if |visited| == 0 then Finished(start)
    else if !skipCheck then
      CheckCallRejected(visited[0], folder, indexName);
      Aborted(s, files)
    else
      var n := |visited|;
      VisitAllCounts(start, visited, folder, indexName, storeResolves, envs[..n], inserts[..n]);
      if !storeResolves then
        VisitAllAsWritten(start, visited, folder, indexName, envs[..n], inserts[..n]);
        Finished(VisitAll(start, visited, folder, indexName, storeResolves, envs[..n], inserts[..n]))
      else
        Finished(VisitAll(start, visited, folder, indexName, storeResolves, envs[..n], inserts[..n]))
  }
}
