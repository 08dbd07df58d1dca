/** The processed-documents ledger in BigQuery: a table of rows
    (link, status, optional error message, timestamp) plus the module-level
    flag that remembers, once set, that the table exists. The table is a
    plain sequence of rows threaded through pure functions; the client and
    the outcome of each remote call are an explicit `Infra` value. */
module Ledger {
  import opened Wrappers

  const Success := "success"
  const Failure := "failed"

  datatype Row = Row(fileLink: string, status: string, errorMessage: Option<string>, processedAt: string)

  /** `_processed_docs_table_exists` and the rows of `processed_documents`. */
  datatype Store = Store(tableKnown: bool, rows: seq<Row>)

  datatype Insert = InsertOk | InsertErrors | InsertRaises

  /** What the remote side does on one call. */
  datatype Infra = Infra(
    client: bool,            // `get_bigquery_client()` returns a client
    datasetFound: bool,      // `get_dataset` succeeds
    datasetCreated: bool,    // otherwise `create_dataset` succeeds
    tableFound: bool,        // `get_table` succeeds
    tableCreated: bool,      // otherwise `create_table` succeeds
    queryOk: bool,           // the COUNT(*) query runs
    insert: Insert)          // `insert_rows_json`

  predicate SetupSucceeds(infra: Infra) {
    (infra.datasetFound || infra.datasetCreated) && (infra.tableFound || infra.tableCreated)
  }

  /** `ensure_processed_docs_table_exists`: the answer and the new flag. */
  function EnsureTable(s: Store, infra: Infra): (out: (bool, Store))
    ensures out.1.rows == s.rows
    ensures s.tableKnown ==> out == (true, s)
    ensures !s.tableKnown ==> (out.0 <==> infra.client && SetupSucceeds(infra))
    ensures out.1.tableKnown == out.0
  {
    if s.tableKnown then (true, s)
    else if !infra.client then (false, s)
    else if !SetupSucceeds(infra) then (false, s)
    else (true, s.(tableKnown := true))
  }

  /** Some row records this link with status `success`. */
  predicate HasSuccess(rows: seq<Row>, link: string) {
    exists i :: 0 <= i < |rows| && rows[i].fileLink == link && rows[i].status == Success
  }

  /** Both guards of the ledger operations: a client, and a table. */
  function Ready(s: Store, infra: Infra): (out: (bool, Store))
    ensures out.1.rows == s.rows
    ensures out.0 <==> infra.client && (s.tableKnown || SetupSucceeds(infra))
    ensures out.1.tableKnown == (s.tableKnown || out.0)
  {
    if !infra.client then (false, s) else EnsureTable(s, infra)
  }

  /** `is_document_already_processed`: never raises; any failure reads as
      "not processed". */
  function IsProcessed(s: Store, link: string, infra: Infra): (out: (bool, Store))
    ensures out.1 == Ready(s, infra).1
    ensures out.0 <==> Ready(s, infra).0 && infra.queryOk && HasSuccess(s.rows, link)
  {
    var (ready, s1) := Ready(s, infra);
    if !ready || !infra.queryOk then (false, s1)
    else (HasSuccess(s1.rows, link), s1)
  }

  /** `if error_message:` — `None` and `""` leave the column out. */
  function ErrorColumn(err: Option<string>): (c: Option<string>)
    ensures c.Some? <==> err.Some? && err.value != ""
    ensures c.Some? ==> c == err
  {
    if err.Some? && err.value != "" then err else None
  }

  /** `mark_document_as_processed`: on success exactly one row is appended
      and nothing else changes; on any failure the rows are untouched. */
  function Mark(s: Store, link: string, status: string, err: Option<string>, now: string, infra: Infra)
    : (out: (bool, Store))
    ensures out.1.tableKnown == Ready(s, infra).1.tableKnown
    ensures out.0 <==> Ready(s, infra).0 && infra.insert == InsertOk
    ensures out.0 ==> out.1.rows == s.rows + [Row(link, status, ErrorColumn(err), now)]
    ensures !out.0 ==> out.1.rows == s.rows
  {
    var (ready, s1) := Ready(s, infra);
    if !ready then (false, s1)
    else match infra.insert
      case InsertOk => (true, s1.(rows := s1.rows + [Row(link, status, ErrorColumn(err), now)]))
      case InsertErrors => (false, s1)
      case InsertRaises => (false, s1)
  }

  datatype UploadOutcome =
    | Unavailable(store: Store)   // returned False
    | Uploaded(store: Store)      // returned True
    | Reraised(store: Store)      // the load error propagated

  /** `upload_to_bigquery` for a row whose `file_id` is `fileId`; after a
      successful load a truthy id is marked `success` (the mark's own
      answer is ignored). The analysis-results table is not modelled, only
      the ledger it writes to. */
  function Upload(s: Store, fileId: Option<string>, loadOk: bool, now: string, infra: Infra): (o: UploadOutcome)
    ensures o.Unavailable? <==> !Ready(s, infra).0
    ensures o.Reraised? <==> Ready(s, infra).0 && !loadOk
    ensures o.Uploaded? && fileId.Some? && fileId.value != "" ==>
      o.store == Mark(Ready(s, infra).1, fileId.value, Success, None, now, infra).1
    ensures o.Uploaded? && (fileId.None? || fileId.value == "") ==> o.store == Ready(s, infra).1
    ensures !o.Uploaded? ==> o.store == Ready(s, infra).1
  {
    var (ready, s1) := Ready(s, infra);
    if !ready then Unavailable(s1)
    else if !loadOk then Reraised(s1)
    else if fileId.Some? && fileId.value != "" then Uploaded(Mark(s1, fileId.value, Success, None, now, infra).1)
    else Uploaded(s1)
  }

  /** A successful upload with a truthy id, when the ledger insert goes
      through, makes the id read as processed. */
  lemma UploadMarksProcessed(s: Store, id: string, now: string, infra: Infra)
    requires id != "" && infra.client && (s.tableKnown || SetupSucceeds(infra))
    requires infra.insert == InsertOk && infra.queryOk
    ensures var o := Upload(s, Some(id), true, now, infra);
      o.Uploaded? && IsProcessed(o.store, id, infra).0
  {
    var o := Upload(s, Some(id), true, now, infra);
    var rows := o.store.rows;
    assert rows[|rows| - 1].fileLink == id;
  }

  // ---------------------------------------------------------------------
  // Sequences of ledger operations

  datatype Op =
    | EnsureOp
    | CheckOp(link: string)
    | MarkOp(link: string, status: string, err: Option<string>, at: string)
    | UploadOp(fileId: Option<string>, loadOk: bool, at: string)

  function Step(s: Store, op: Op, infra: Infra): Store {
    match op
    case EnsureOp => EnsureTable(s, infra).1
    case CheckOp(link) => IsProcessed(s, link, infra).1
    case MarkOp(link, status, err, at) => Mark(s, link, status, err, at, infra).1
    case UploadOp(id, ok, at) => Upload(s, id, ok, at, infra).store
  }

  /** Each operation paired with how the remote side behaves for it. */
  function Run(s: Store, ops: seq<(Op, Infra)>): Store
    decreases |ops|
  {
    if |ops| == 0 then s else Run(Step(s, ops[0].0, ops[0].1), ops[1..])
  }

  /** One operation only appends rows and never clears the flag. */
  lemma StepAppends(s: Store, op: Op, infra: Infra)
    ensures s.rows <= Step(s, op, infra).rows
    ensures s.tableKnown ==> Step(s, op, infra).tableKnown
  {
  }

  /** The ledger is append-only and the cached flag, once set, stays set,
      whatever operations follow and however they fail. */
  lemma {:induction false} RunAppends(s: Store, ops: seq<(Op, Infra)>)
    ensures s.rows <= Run(s, ops).rows
    ensures s.tableKnown ==> Run(s, ops).tableKnown
    decreases |ops|
  {
    if |ops| > 0 {
      var s1 := Step(s, ops[0].0, ops[0].1);
      StepAppends(s, ops[0].0, ops[0].1);
      RunAppends(s1, ops[1..]);
    }
  }

  /** Once a link has a `success` row it reads as processed from then on,
      whenever the ledger can be queried; later `failed` rows never undo
      it. */
  lemma ProcessedStaysProcessed(s: Store, ops: seq<(Op, Infra)>, link: string, infra: Infra)
    requires HasSuccess(s.rows, link)
    requires infra.client && infra.queryOk && (Run(s, ops).tableKnown || SetupSucceeds(infra))
    ensures IsProcessed(Run(s, ops), link, infra).0
  {
    RunAppends(s, ops);
    var i :| 0 <= i < |s.rows| && s.rows[i].fileLink == link && s.rows[i].status == Success;
    assert Run(s, ops).rows[i] == s.rows[i];
  }

  /** A successful `success` mark makes the link read as processed. */
  lemma MarkThenProcessed(s: Store, link: string, err: Option<string>, now: string, infra: Infra)
    requires Mark(s, link, Success, err, now, infra).0
    requires infra.queryOk
    ensures IsProcessed(Mark(s, link, Success, err, now, infra).1, link, infra).0
  {
    var rows := Mark(s, link, Success, err, now, infra).1.rows;
    assert rows[|rows| - 1].fileLink == link;
  }
}
