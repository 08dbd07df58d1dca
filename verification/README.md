# GPO-EIL document pipeline and dashboard, modelled in Dafny

GPO-EIL collects project documents and shows engagement data on a dashboard. This project models its core in Dafny:

- **The Python document pipeline.**
  - The document processor sends a link to Google Drive, Cloud Storage or plain HTTP, downloads it to a temporary file and flattens its text.
  - The batch loop walks a list of links. It skips links that the processed-documents ledger in BigQuery already records, and it records a `success` or `failed` row for every other link.
  - The storage helpers cover Drive file ids, GCS URIs, uploads and listings.
  - The logging utilities cover metadata sanitising, truncation and level routing.
  - The projects API reshapes result-table rows for the dashboard.
  - The older Flask-era module has its own copies of the sanitizer, the ledger, the index builder and the batch loop.
- **The dashboard's derivations.**
  - The filter controls, and the tool, funding and SDG tallies.
  - The project explorer: its shuffle, the refresh order, pagination and page controls.
  - The bar charts: order capture, top-20 cut, click selection and fills.
  - The SDG impact graph (caption, inner ring, colours) and the SDG summary.
  - The world map: distributing projects over the static dots, dot colours and the hover card.
  - The project report dialog: the PDF file name, fallback texts, lists with placeholders and file links.

Everything outside the program is a parameter. That covers cloud clients, HTTP replies, Drive metadata, the document reader, `mimetypes.guess_extension`, `json.dumps`, `str()`, the clock, `Math.random` and temporary file names. Each operation is a pure function over plain datatypes. The ledger is a value: its cached "table exists" flag and its rows are threaded through the calls.

Three behaviours that look unintended are modelled as the code has them:

- `process_document` with zero extracted segments returns an empty text and no error (python_backend/document/processor.py:110-114).
- The tool context column that `transform_project_for_frontend` reads is `project_description_context` (python_backend/api/projects_api.py:86).
- The report dialog's Hub field falls back to the engagement-ID placeholder text (components/project-report-modal.tsx:104).

In the table below, "checking on" means `skip_processed_check` is false, so the loop consults the ledger before each link.

## Model

| member | source | states |
|---|---|---|
| Processor.Classify | python_backend/document/processor.py:229-234 | A link goes to Drive exactly when it starts with the Drive host or mentions the Docs host. It goes to GCS exactly when it is not a Drive link and starts with `gs://`. Every other link goes to HTTP. |
| Processor.GcsRoute | python_backend/document/processor.py:229-232 | A `gs://` link is routed to GCS exactly when it does not mention the Docs host. |
| Processor.ExtractFileId | python_backend/document/processor.py:350-361 | No id exactly when none of the three patterns matches anywhere. Otherwise the id is the group of the leftmost match of the first pattern that matches. The id is never empty. An id taken by the `/file/d/` or the Docs pattern holds no `/`, and one taken by the `open?id=` pattern holds no `&`. |
| Processor.FileIdRoundTrip | python_backend/document/processor.py:352-353 | A `drive.google.com/file/d/<id>` link gives back `<id>`. |
| Processor.OpenIdRoundTrip | python_backend/document/processor.py:352-354 | A `drive.google.com/open?id=<id>` link gives back `<id>`. |
| Processor.DriveDownload | python_backend/document/processor.py:236-297 | A link with no id fails. The call raises only when authentication raises. A temporary file is created exactly when there are credentials and metadata. It is returned when the transfer finishes, and otherwise left behind while the route returns None. The file's suffix is the export suffix or the guessed one. |
| Processor.GcsDownload | python_backend/document/processor.py:299-325 | The call raises when no storage client can be built. A URI with no `/` after the scheme fails. Otherwise a temporary file is created. It is returned when the transfer finishes, and otherwise left behind. Its suffix comes from the blob's content type. |
| Processor.HttpDownload | python_backend/document/processor.py:327-348 | The call never raises. A temporary file is created only for status 200, so any other status fails. It is returned when the body is written, and otherwise left behind. The suffix is guessed from the Content-Type, which defaults to octet-stream. |
| Processor.CreateTempfilePath | python_backend/document/processor.py:217-234 | Each link is handled by the download of its route. |
| Processor.OnlyOkStatus | python_backend/document/processor.py:331-333 | An HTTP link answered with any status other than 200, other 2xx statuses included, yields no file. |
| Processor.FlattenSnoc | python_backend/document/processor.py:110 | Appending a segment appends one space and the segment's stripped text. |
| Processor.FlattenLength | python_backend/document/processor.py:110 | The text's length is the sum of the stripped lengths plus one separator between each pair of neighbours. |
| Processor.ProcessDocument | python_backend/document/processor.py:86-124 | There is a result exactly when the download produced a file and the extraction succeeded. The result carries the full link as id and the flattened text. When a file was returned, it is gone afterwards on both paths. A file created by a transfer that then raised stays among the files on disk. When no file was created, nothing changes. |
| Mime.GuessOrBin | python_backend/document/processor.py:276 | The suffix is never empty. It is the guessed extension when that is non-empty, and `.bin` otherwise. |
| Mime.DownloadPlan | python_backend/document/processor.py:259-278 | The three Workspace types are exported, each with its fixed Office type and suffix. Every other type is downloaded as media with the guessed suffix. |
| Patterns.Search | python_backend/document/processor.py:358 | `re.search`: the leftmost position where the pattern matches, or none exactly when it matches nowhere. |
| Patterns.FirstGroup | python_backend/document/processor.py:357-361 | The first pattern in the list that matches decides. The result is empty exactly when no pattern matches anywhere. |
| Gcs.SplitUri | python_backend/storage/gcs.py:66-70 | `link[5:].split('/', 1)`: the split fails exactly when the rest holds no `/`. Otherwise the bucket holds no `/`, and bucket, `/` and blob give the rest back. |
| Gcs.SplitJoin | python_backend/storage/gcs.py:66-70 | A URI built from a five-character scheme, a bucket without `/`, a `/` and a blob splits back into that bucket and blob. |
| Gcs.BlobSuffix | python_backend/storage/gcs.py:75-76 | An unset content type reads as octet-stream. The suffix is then guessed, with `.bin` as the default. |
| Gcs.EnsureBucketExists | python_backend/storage/gcs.py:36-49 | A bucket comes back exactly when it has a name, there is a client and the lookup succeeds. It is the named bucket. |
| Gcs.DownloadFile | python_backend/storage/gcs.py:61-86 | A path comes back exactly when there is a client, the URI splits and the transfer succeeds. It ends with the blob's suffix. |
| Gcs.DownloadStray | python_backend/storage/gcs.py:78-86 | The temporary file is left behind, unreturned, exactly when there is a client, the URI splits and the transfer raises. It carries the blob's suffix. |
| Gcs.DownloadCreates | python_backend/storage/gcs.py:61-86 | A temporary file is created exactly when there is a client and the URI splits. It is then either returned or left behind, never both. |
| Gcs.PathJoin | python_backend/storage/gcs.py:111 | `os.path.join` of two parts: an absolute second part replaces the first, and otherwise exactly one `/` is put between them. |
| Gcs.UploadFile | python_backend/storage/gcs.py:100-128 | A missing local file gives nothing. On success the URI is `gs://<bucket>/<folder joined with the name>`, and the name defaults to the local basename. |
| Gcs.UploadThenSplit | python_backend/storage/gcs.py:125 | The URI an upload returns splits back into the documents bucket and the blob path. |
| Gcs.ListFiles | python_backend/storage/gcs.py:140-150 | The listing exists exactly when there is a client and listing succeeds. No listed name ends with `/`. |
| Gcs.ListFilesExact | python_backend/storage/gcs.py:147 | A name is listed exactly when it is a blob name not ending in `/`. Listing more blobs extends the listing at the end. |
| Drive.ExtractFileId | python_backend/storage/drive.py:115-133 | An empty URL has no id. Otherwise there is no id exactly when none of the three patterns matches. The three patterns are tried in order, and the id is never empty. |
| Drive.FileSegmentRoundTrip | python_backend/storage/drive.py:119-121 | `<prefix>/file/d/<id>` gives back `<id>` for any prefix in which the segment does not already start, host and path included. |
| Drive.DocumentedFileLink | python_backend/storage/drive.py:105 | The documented `https://drive.google.com/file/d/FILE_ID/view` form gives back `FILE_ID`. |
| Drive.DocumentedDocsLink | python_backend/storage/drive.py:107 | The documented `https://docs.google.com/document/d/FILE_ID/edit` form, and its spreadsheet and presentation siblings, give back `FILE_ID`. |
| Drive.IdQueryRoundTrip | python_backend/storage/drive.py:124-126 | `?id=<id>` in a URL with no `/file/d/` gives back `<id>`. |
| Drive.DownloadFile | python_backend/storage/drive.py:39-98 | Once a client is held, a path comes back exactly when the id is found, the client and metadata are there and the transfer succeeds. Its suffix is the export or guessed one. |
| Drive.DownloadStray | python_backend/storage/drive.py:82-98 | The temporary file is left behind, unreturned, exactly when it was created and the transfer then raised. It is the file a finished transfer would have returned. |
| Drive.DownloadCreates | python_backend/storage/drive.py:81-98 | A temporary file is created exactly when the id, the client and the metadata are there. It is then either returned or left behind, never both. |
| Drive.GetDriveService | python_backend/storage/drive.py:17-27 | A cached client is returned as is. Otherwise a client comes back, and is cached, exactly when the authenticator is bound and succeeds. A failure is caught, returns None and leaves the cache unset. |
| Drive.DownloadWith | python_backend/storage/drive.py:29-98 | A path comes back exactly when the id is found, a client is cached or the bound authenticator succeeds, the metadata is there and the transfer succeeds. A client is cached afterwards exactly when one was cached before, or the id was found and authentication succeeded. |
| Drive.DownloadNeverAsWritten | python_backend/storage/drive.py:17-27 | As written, a fresh process never downloads anything and never caches a client, whatever the link, metadata and transfer. |
| Drive.DownloadBound | python_backend/storage/drive.py:17-98 | With a working authenticator bound, a recognised link with metadata downloads and the client is cached. Once cached, the authenticator no longer matters. |
| Ledger.EnsureTable | python_backend/storage/bigquery.py:79-137 | A cached flag answers true without touching anything. Otherwise the answer is true exactly when there is a client and the dataset and table setup succeeds, and the flag records that answer. The rows never change. |
| Ledger.Ready | python_backend/storage/bigquery.py:151-154 | The guard of the ledger calls passes exactly when there is a client and the table is cached or can be set up. |
| Ledger.IsProcessed | python_backend/storage/bigquery.py:139-180 | True exactly when the guard passes, the query succeeds and some row records the link with status `success`. Every failure reads as false. |
| Ledger.ErrorColumn | python_backend/storage/bigquery.py:208-209 | The error column is written exactly for a non-empty message. |
| Ledger.Mark | python_backend/storage/bigquery.py:182-222 | Succeeds exactly when the guard passes and the insert reports no errors. Then exactly one row (link, status, error column, time) is appended. Otherwise the rows are untouched. |
| Ledger.Upload | python_backend/storage/bigquery.py:269-303 | Unavailable exactly when the guard fails. A failed load re-raises. A successful load with a truthy `file_id` marks that id `success`, and otherwise writes no ledger row. |
| Ledger.UploadMarksProcessed | python_backend/storage/bigquery.py:292-299 | After a successful upload whose ledger insert goes through, the uploaded id reads as processed. |
| Ledger.StepAppends | python_backend/storage/bigquery.py:182-222 | One ledger operation only appends rows and never clears the cached flag. |
| Ledger.RunAppends | python_backend/storage/bigquery.py:86-137 | Over any sequence of operations the ledger only grows, and a set flag stays set. |
| Ledger.ProcessedStaysProcessed | python_backend/storage/bigquery.py:157-175 | A link with a `success` row keeps reading as processed after any later operations. |
| Ledger.MarkThenProcessed | python_backend/storage/bigquery.py:202-219 | A successful `success` mark makes the link read as processed. |
| Batch.BindCall | python_backend/document/processor.py:160-186 | Python argument binding: a `TypeError` exactly when there are too many positionals, an unknown keyword, a keyword already filled positionally, or a parameter without a default that nothing fills. Every such parameter is bound on success, and bound names are parameters. |
| Batch.MarkWithoutLinkRejected | python_backend/storage/bigquery.py:182 | `mark_document_as_processed(status=...)` without the link is rejected: `file_link` has no default. |
| Batch.ProcessCallRejected | python_backend/document/processor.py:160-163 | `process_document(file_link=..., index_name=...)` is rejected: the function has no `index_name`. |
| Batch.SuccessMarkRecordsIndexName | python_backend/document/processor.py:172 | The success mark binds the index name to `status`, so the recorded status is the index name. |
| Batch.FailureMarkRejected | python_backend/document/processor.py:176-178 | The failure mark gives `status` twice, positionally and by keyword, and is rejected. |
| Batch.IntendedCallsBind | python_backend/document/processor.py:160-186 | The calls without the index name bind, recording `success` and `failed` respectively. |
| Batch.ReadResult | python_backend/document/processor.py:165-169 | A truthy result is filed exactly when it holds both keys read. The value key is looked up first, so its `KeyError` wins. The caught `KeyError` becomes a raised step with the quoted key. |
| Batch.ProcessResult | python_backend/document/processor.py:111-114 | The result of a processed link holds exactly the keys `file_id` and `text_doc_fa`, carrying the link and the text. |
| Batch.ResultLookupAsWritten | python_backend/document/processor.py:166-167 | As written, reading `description` and `index` from the dictionary `process_document` returns raises `KeyError: 'index'`, and the link is marked `failed` with that message. |
| Batch.ResultLookupIntended | python_backend/document/processor.py:111-114 | Reading the keys the result holds files the document under its link and marks it `success`. |
| Batch.MarkFor | python_backend/document/processor.py:165-186 | The requested row is for the link. It is `success` exactly when a result was produced, with no message. Otherwise it is `failed` with the fixed message or the exception's text. |
| Batch.SkipTest | python_backend/document/processor.py:154 | Checking off never skips. Checking on skips exactly on a ledger hit. |
| Batch.Visit | python_backend/document/processor.py:149-186 | One verdict per link: skipped exactly on a skip, processed exactly on a produced result. A mark is requested for every link not skipped. Rows grow by at most one per mark. |
| Batch.ProcessDocumentLinks | python_backend/document/processor.py:141-193 | The three counters add up to the number of links, and each equals its verdict count. There is one mark per non-skipped link. Checking off means nothing is skipped. |
| Batch.RunDiscipline | python_backend/document/processor.py:152-157 | Link `i` is skipped exactly when checking is on and the ledger, as left by the links before it, records it. |
| Batch.RunLength | python_backend/document/processor.py:148-186 | One verdict per link, and one mark per link not skipped. |
| Batch.RunPrefix | python_backend/document/processor.py:148-186 | What the loop has done after the first links is a prefix of what it does over all of them. Later links only append verdicts and marks. |
| Batch.RunAppendsRows | python_backend/document/processor.py:171-186 | The loop only appends to the ledger, at most one row per mark. |
| Batch.SkipsProcessed | python_backend/document/processor.py:154-157 | A link already recorded as `success` is skipped whenever the check can reach the ledger. |
| Batch.RunAsWritten | python_backend/document/processor.py:148-186 | As written: skipped links are skipped, and the first link that is not skipped aborts the loop. The ledger is never written. |
| Batch.AsWrittenNeverProcesses | python_backend/document/processor.py:159-186 | As written, no ledger row is ever written. With checking off and at least one link the loop aborts at the first link. |
| Batch.AsWrittenOnlySkips | python_backend/document/processor.py:152-186 | As written, a completed run consists of skips only. |
| Batch.AsWrittenDiffers | python_backend/document/processor.py:159-186 | With checking off, the intended loop requests one mark per link, while the loop as written aborts. |
| Batch.NoSkipsWithoutCheck | python_backend/document/processor.py:154 | With checking off, no verdict is a skip. |
| Metadata.SanitizeValue | python_backend/utils/logging.py:50-64 | Scalars are kept. Containers become their JSON text, or `str()` when JSON fails. `None` becomes `""`. Any other object becomes `str()`. |
| Metadata.Sanitize | python_backend/utils/logging.py:45-66 | No metadata gives `{}`. Otherwise the keys are the same and every value is a non-null scalar, converted entry by entry. |
| Metadata.ContainerFallback | python_backend/utils/logging.py:55-58 | A container that JSON cannot encode falls back to `str()`, and one that it can encode becomes its JSON text. |
| Metadata.SanitizeIdempotent | python_backend/utils/logging.py:45-66 | Sanitizing twice gives the same map as sanitizing once. |
| Metadata.LevelFor | python_backend/utils/logging.py:83-94 | Each of the four named levels routes to itself, and every other name routes to info. |
| Metadata.Truncate | python_backend/utils/logging.py:78-81 | A message within the limit is unchanged. A longer one ends with the truncation marker and is the first `max_length` characters plus the marker. |
| Metadata.LogWithTruncation | python_backend/utils/logging.py:68-94 | A message within the limit is logged whole. A longer one is logged as its first `max_length` characters plus the marker; a negative limit cuts from the end, as Python's slice does. The four named levels route to themselves, and every other name, `info` included, routes to info. |
| Metadata.TruncateKeepsPrefix | python_backend/utils/logging.py:78-81 | What survives truncation is a prefix of the message, at most `max_length` long. |
| Legacy.SanitizeValue | python_backend/doc_processing.py:99-108 | `None` and scalars are kept, and everything else becomes its `str()`. |
| Legacy.Sanitize | python_backend/doc_processing.py:95-110 | `None` gives `{}`. Otherwise the keys are the same and every value is `None` or a scalar. |
| Legacy.SanitizersCompared | python_backend/doc_processing.py:95-110 | The legacy and utility sanitizers agree on scalars and on plain objects. They differ on `None` and on containers. |
| Legacy.CheckBody | python_backend/doc_processing.py:205-233 | Past the availability guard, the lookup of an unbound `folder_name` raises. With a binding, a failing query raises. Otherwise the answer is whether a `success` row matches. |
| Legacy.IsProcessedAsWritten | python_backend/doc_processing.py:193-236 | As written, the check never answers true, whatever the query would do. |
| Legacy.IsProcessedIntended | python_backend/doc_processing.py:205-236 | Intended: true exactly when the ledger is available, the query succeeds, and some `success` row for the link matches the index name. A failing query reads as not processed. |
| Legacy.Mark | python_backend/doc_processing.py:239-280 | Succeeds exactly when the ledger is available and the insert succeeds. Then exactly one row with folder and index name is appended. |
| Legacy.MarkThenCheck | python_backend/doc_processing.py:212-271 | A successful `success` mark is found by the intended check exactly when its query succeeds. It is never found by the check as written. |
| Legacy.DocumentIndexName | python_backend/doc_processing.py:416-417 | The name is the base name, a dash, and the link's basename. The part after the dash holds no `/`. |
| Legacy.CreateIndex | python_backend/doc_processing.py:400-472 | Without the vector store nothing happens. Otherwise a downloaded file is always removed, while a file created by a transfer that then raised stays. A build comes back exactly when the download and the read succeed and any build succeeds. Its description is `Document: <basename>`, and it has an index exactly when documents were read. |
| Legacy.CheckCallRejected | python_backend/doc_processing.py:502 | The three-argument ledger check is rejected by the two-parameter function. |
| Legacy.CheckCallBinds | python_backend/doc_processing.py:193 | The check called with the link and the index name binds exactly those two. |
| Legacy.CreateCallBinds | python_backend/doc_processing.py:508-512 | The keyword call of the index builder binds. |
| Legacy.SuccessMarkBinds | python_backend/doc_processing.py:518 | The success mark leaves `status` at its default, `success`. |
| Legacy.FailureMarkBinds | python_backend/doc_processing.py:522-532 | The failure marks bind `status` to `failed` and pass the message. |
| Legacy.VisitLink | python_backend/doc_processing.py:507-532 | One link is counted once. A processed link adds its index under its description and marks `success`. Anything else is an error marked `failed` with the fixed message. |
| Legacy.VisitAllCounts | python_backend/doc_processing.py:497-536 | Every visited link is counted once as processed or as an error. Nothing is skipped. Rows only grow, at most one per link. |
| Legacy.VisitAllAsWritten | python_backend/doc_processing.py:420-472 | With the vector store unresolved, nothing is ever processed or indexed, no temporary file remains, and every new row is `failed`. |
| Legacy.VisitChecked | python_backend/doc_processing.py:500-505 | Intended check: a link is skipped exactly when the intended check finds it, and a skip changes nothing else. Otherwise the link is visited as without the check. Every link is counted once. |
| Legacy.CheckedRevisitSkips | python_backend/doc_processing.py:500-518 | After a link is indexed and recorded, visiting it again skips it when the query succeeds: no second index and no second row. When the query fails, the link is visited again. |
| Legacy.ProcessLinks | python_backend/doc_processing.py:474-539 | The run aborts exactly when checking is on and there is a link, and then the ledger is untouched. Otherwise at most the first two links are visited, each counted once, with no skips. With the store unresolved, every new row is `failed`. |
| Projects.Get | python_backend/api/projects_api.py:92-127 | `row.get(key, default)`: the default is used only when the key is absent, and a present `NULL` is kept. |
| Projects.Tools | python_backend/api/projects_api.py:79-87 | One tool per record with a truthy `technology`, in order, each built from its record. |
| Projects.ToolsFaithful | python_backend/api/projects_api.py:82-87 | Every tool shown has a non-empty name, and every record with a technology yields its tool. |
| Projects.ToolsAppend | python_backend/api/projects_api.py:81-87 | The tools of concatenated records are the concatenated tools. |
| Projects.Outcomes | python_backend/api/projects_api.py:121-125 | The truthy `outcome_item` values in record order, one per record that has one. |
| Projects.Iterate | python_backend/api/projects_api.py:81-123 | Iterating a repeated column works for records and the empty default, and fails on `NULL` or non-empty text. |
| Projects.Transform | python_backend/api/projects_api.py:68-130 | The transform raises exactly when a truthy tools column or an outcome column cannot be iterated. It renames the columns with their defaults and derives tools and outcomes. |
| Projects.TransformTotal | python_backend/api/projects_api.py:79-127 | A row whose repeated columns are all well formed never makes the transform raise. |
| Projects.TransformFields | python_backend/api/projects_api.py:92-127 | Each of the eighteen renamed fields is its source column when present, and its default when absent: `Unknown` for region and manager, `unknown@example.com` for the manager's email, `[]` for the SDG lists and `""` otherwise. The raw repeated columns are passed through. |
| Projects.NormalizeValue | python_backend/api/projects_api.py:54-55 | `NULL` and records are kept as they are, and non-empty text fails. |
| Projects.Normalize | python_backend/api/projects_api.py:48-55 | The keys are kept. Normalising fails exactly when one of the four repeated columns holds non-empty text. |
| Projects.ShapeAll | python_backend/api/projects_api.py:42-59 | One record per row in row order, or a failure exactly when some row fails. |
| Projects.Fetch | python_backend/api/projects_api.py:24-66 | With no client or a failed query the result is empty. Otherwise it is one record per row, or empty when any row raises. |
| Dashboard.Filtered | components/dashboard.tsx:98-109 | A project is kept exactly when it passes all five controls. |
| Dashboard.FilteredAppend | components/dashboard.tsx:98 | Filtering keeps the relative order of the projects it keeps. |
| Dashboard.NeutralFilters | components/dashboard.tsx:99-106 | With every control neutral the list is unchanged. |
| Dashboard.ToolCountsSpec | components/dashboard.tsx:112-129 | One entry per tool, and every tool is a known one. Each count is the number of listings across the filtered projects. Entries are sorted by count, largest first. Every known tool that is listed has an entry. |
| Dashboard.FundingSourceDataSpec | components/dashboard.tsx:131-144 | One bar per donor, never with an empty name. Each value is the number of tools the donor funds among the filtered projects. Bars are sorted largest first. Every donor funding a listed tool has a bar. |
| Dashboard.SdgName | components/dashboard.tsx:150 | The bar name is `SDG ` followed by the goal string, `SDG undefined` for a missing goal and `SDG null` for a null one. |
| Dashboard.SdgNameMerges | components/dashboard.tsx:150-152 | Two goal strings share a bar exactly when they are equal. A missing goal shares the bar of the string `undefined`, and a null goal that of the string `null`. |
| Dashboard.SdgDescription | components/dashboard.tsx:158 | The description is the goal's name when truthy, and otherwise `Unknown SDG`. |
| Dashboard.SdgImpactDataSpec | components/dashboard.tsx:147-164 | One bar per goal name. Each count is the number of goals with that name, and the description is taken from the first such goal. Every goal name has a bar. Bars are sorted largest first. |
| Dashboard.RegionsSpec | components/dashboard.tsx:87 | After `All`, each region appears exactly once, and these are exactly the projects' regions. |
| Dashboard.RegionsPrefix | components/dashboard.tsx:87 | First-appearance order: the region list of a prefix of the projects is a prefix of the whole region list. |
| Tallies.SortedTally | components/dashboard.tsx:113-129 | The grouped `reduce` then sort: one entry per key, every key present. Each total is the sum of that key's events, and each payload comes from the key's first event. The result is sorted. |
| Tallies.TallyKeys | components/dashboard.tsx:116-125 | The tally's keys are the distinct event keys in order of first appearance. |
| Tallies.TallyTotals | components/dashboard.tsx:117-124 | A key's total is the sum of its event weights, and its payload is the first event's payload. |
| Tallies.TallyPreservesTotal | components/sdg-impact-graph.tsx:108-123 | Grouping neither creates nor loses weight. |
| Explorer.Swap | components/project-explorer.tsx:38 | Exchanges two entries and leaves every other entry in place, so the contents are a permutation of the input. |
| Explorer.Shuffle | components/project-explorer.tsx:34-41 | The swap loop gives a permutation of the same length. With identity picks it gives the input. |
| Explorer.Refresh | components/project-explorer.tsx:49-65 | The first refresh gives a permutation of the projects. Later ones give the held projects still present, in held order, followed by the new ones. |
| Explorer.KeptOrder | components/project-explorer.tsx:54-57 | The surviving held projects keep their held order, and are exactly the held ids that are still present. |
| Explorer.KeptComplete | components/project-explorer.tsx:55-57 | With unique ids, a project whose id was held is kept. |
| Explorer.RefreshPermutes | components/project-explorer.tsx:54-63 | With unique ids, a later refresh gives exactly the current projects, each once. |
| Explorer.TotalPages | components/project-explorer.tsx:71 | `ceil(n / 10)`: the least number of pages that holds every row. |
| Explorer.PageItems | components/project-explorer.tsx:68-70 | A page holds at most ten rows. A page in range is non-empty, and a page past the end is empty. |
| Explorer.PagesCover | components/project-explorer.tsx:68-71 | Reading the pages in order gives back every row exactly once. |
| Explorer.ShowingFooter | components/project-explorer.tsx:413 | The footer reads "Showing (page-1)*10+1 to min(page*10, n) of n". For a page in range, 1 <= first <= last <= n, and the span first..last is the number of rows shown. |
| Explorer.FooterShowsPage | components/project-explorer.tsx:413 | For a page in range, the rows the footer names (first to last, counted from one) are exactly the rows on that page. |
| Explorer.NavigationInRange | components/project-explorer.tsx:353-404 | From a page in range, Previous and Next stay in `1..total`. |
| Explorer.ControlAsWritten | components/project-explorer.tsx:361-396 | As written, a page gets a link exactly when it is one of the first five, one of the last two, or next to the current page. A page without a link gets an ellipsis exactly when it is page 6 or page `total - 3` and there are more than ten pages; every other page is blank. |
| Explorer.LinksPresent | components/project-explorer.tsx:362-365 | The current, first and last pages always have links, and with at most seven pages every page does. |
| Explorer.UnmarkedGap | components/project-explorer.tsx:368-370 | As written, twelve pages with page 8 current leave page 10 hidden and unmarked between two links. |
| Explorer.DoubleEllipsis | components/project-explorer.tsx:368-370 | As written, eleven pages with page 1 current give one gap two ellipses. |
| Explorer.ControlAt | components/project-explorer.tsx:361-396 | Corrected: the same links, and an ellipsis exactly at the first page of each hidden run. |
| Explorer.GapsMarked | components/project-explorer.tsx:387-392 | Corrected: every hidden page lies in a hidden run that starts with an ellipsis. |
| Explorer.EllipsesSeparated | components/project-explorer.tsx:387-392 | Corrected: any two ellipses have a link between them. |
| Explorer.ShownTools | components/project-explorer.tsx:146 | At most five tools, as a prefix of the list, and the whole list when it has five or fewer. |
| Ordering.ByName | components/remote-sensing-tools.tsx:88-91 | The lookup finds an entry of the series with that name, or nothing exactly when no entry has it. |
| Ordering.ReorderNames | components/remote-sensing-tools.tsx:94-96 | The re-listed bars are the captured names still present, in captured order. |
| Ordering.ReorderOwn | components/remote-sensing-tools.tsx:94-96 | Re-listing a series in its own order gives the series back. |
| Ordering.ReorderPermutes | components/remote-sensing-tools.tsx:94-96 | When every current name was captured, re-listing is a permutation of the series. |
| Ordering.Capture | components/remote-sensing-tools.tsx:74-79 | The order is captured from the first non-empty series and kept afterwards. |
| ToolsChart.Render | components/remote-sensing-tools.tsx:82-100 | Before capture the bars are the series as given. After capture the order stays, and every bar comes from the series. |
| ToolsChart.FirstSeries | components/remote-sensing-tools.tsx:74-85 | The first series is drawn as given, and drawn the same again once captured. |
| ToolsChart.LaterSeries | components/remote-sensing-tools.tsx:82-100 | Once captured the order stays, and a series whose tools were all captured is drawn in full. |
| ToolsChart.TickLines | components/remote-sensing-tools.tsx:17-43 | One line exactly for up to two words, and that line is the label. Otherwise there are two lines. |
| ToolsChart.TickLinesRejoin | components/remote-sensing-tools.tsx:33-34 | The two lines joined with a space give the label back. |
| ToolsChart.BarFill | components/remote-sensing-tools.tsx:110-157 | The highlight colour is used exactly for the selected tool, and grey otherwise. |
| FundingBar.BarFill | components/funding-source-bar.tsx:81-119 | The darker blue is used exactly for the selected source. |
| FundingBar.Render | components/funding-source-bar.tsx:37-73 | At most twenty bars, sorted by value with the largest first, each from the data. The order is captured before the bars are computed. Once names are captured, every bar carries a captured name. |
| FundingBar.TopValues | components/funding-source-bar.tsx:62-69 | Every entry cut off is no larger than any bar shown. |
| FundingBar.FirstRender | components/funding-source-bar.tsx:40-69 | The first series is drawn as its own top twenty, largest first. |
| FundingBar.DashboardSeries | components/funding-source-bar.tsx:62-69 | A sorted series re-listed in its captured order is drawn as its first twenty entries. |
| Selection.Click | components/remote-sensing-tools.tsx:115-137 | Clicking the selected bar clears the selection, and clicking another bar selects it. The callback sees `null` first and the new selection last. |
| Selection.Reset | components/funding-source-bar.tsx:110-114 | The selection is cleared and reported as `null`. |
| Selection.ClickToggles | components/funding-source-bar.tsx:85-107 | Two clicks on one bar from nothing leave nothing selected, and a click on another bar selects that one. |
| Selection.Fill | components/funding-source-bar.tsx:116-119 | A bar gets the highlight when its name is the selection and the base colour otherwise. When the two colours differ, the highlight marks exactly the selected bar. |
| Selection.OneHighlight | components/funding-source-bar.tsx:117-119 | At most one bar is highlighted. |
| Palette.ColorAt | lib/sdg-colors.ts:2-20 | `sdgColors[i] || fallback`: the table entry for an index in range, and the fallback otherwise. |
| Palette.GraphAgrees | components/sdg-impact-graph.tsx:83-101 | The graph's own table, written out name by name, gives `SDG n` the shared colour of goal `n` for every n from 1 to 17, and it colours no other name. |
| SdgGraph.Shown | components/sdg-impact-graph.tsx:80 | Every bar except `SDG N/A` is kept. |
| SdgGraph.ShownAppend | components/sdg-impact-graph.tsx:80 | Dropping `SDG N/A` distributes over concatenation, so the kept bars stay in their input order. |
| SdgGraph.ShownSingle | components/sdg-impact-graph.tsx:80 | A single bar is kept exactly when it is not named `SDG N/A`. |
| SdgGraph.SortedBars | components/sdg-impact-graph.tsx:126 | The shown bars, largest count first, as a permutation. |
| SdgGraph.SortedInputKept | components/sdg-impact-graph.tsx:126 | Already sorted input is kept as it is. |
| SdgGraph.InnerRingSpec | components/sdg-impact-graph.tsx:108-123 | One slice per category, with the same total as the shown bars. |
| SdgGraph.OneInnerSlice | components/sdg-impact-graph.tsx:110 | With goal names only, the inner ring is one `SDG` slice holding the total. |
| SdgGraph.SliceColors | components/sdg-impact-graph.tsx:216-268 | Goals 1 to 17 get the shared colours, and `SDG N/A` gets the grey fallback. |
| SdgGraph.DescriptionOf | components/sdg-impact-graph.tsx:20-21 | The caption is the description of the first bar with that name, and empty when no bar has that name. |
| SdgGraph.CaptionLines | components/sdg-impact-graph.tsx:23-31 | A description without ` and ` is one line. Otherwise the first line ends with ` & `. |
| SdgGraph.CaptionRejoin | components/sdg-impact-graph.tsx:27-31 | Putting ` and ` back in place of the first line's ` & ` gives the description. |
| SdgSummary.ProjectsTagged | components/sdg-summary.tsx:16 | The count is the number of projects whose `sdg` is the name. |
| SdgSummary.Counts | components/sdg-summary.tsx:14-23 | One row per SDG, sorted by count with the largest first, as a permutation of the unsorted rows. |
| SdgSummary.CountsSpec | components/sdg-summary.tsx:14-23 | Every SDG has its bar with its count, and every bar belongs to an SDG. |
| SdgSummary.GoalColor | components/sdg-summary.tsx:59-63 | `SDG n` gets the colour of goal `n` for `n` from 1 to 17, and the fallback otherwise. |
| SdgSummary.NoNumberColor | components/sdg-summary.tsx:59-63 | A short name with no digits gets the fallback colour. |
| Numbers.ParseInt | components/sdg-summary.tsx:59 | JavaScript `parseInt`: the result is NaN exactly when no digits of the detected radix follow the optional white space and sign (hexadecimal after `0x`/`0X`, decimal otherwise). |
| Numbers.ParseDecimal | components/sdg-summary.tsx:59 | `parseInt` reads back a decimal number followed by anything that is not alphanumeric. |
| Numbers.NoDigitsNoNumber | components/sdg-summary.tsx:59 | A string with no digits parses to NaN. |
| Numbers.FirstDigitRun | components/world-map.tsx:88 | `match(/\d+/)`: nothing exactly when the string has no digit. Otherwise it is the maximal digit run that starts at the first digit. |
| Numbers.JsRem | components/world-map.tsx:73 | JavaScript `%`: lies strictly between `-n` and `n`, equals Dafny's `%` for a non-negative left side, and is non-positive for a negative one. |
| Numbers.JsRemSpec | components/world-map.tsx:73 | The truncated quotient times `n` plus the remainder gives the dividend back. |
| WorldMap.Place | components/world-map.tsx:69-75 | A project is unplaced exactly when no dot has its region. A placed project sits on a dot of its region. A throwing `push` needs a negative id. |
| WorldMap.PlaceNegative | components/world-map.tsx:73-74 | A negative id throws exactly when it is not a multiple of the region's dot count. A multiple lands on the first dot. |
| WorldMap.PlaceNonNegative | components/world-map.tsx:73-74 | A non-negative id lands on the region's dot at `id mod count`. |
| WorldMap.DistributeThrows | components/world-map.tsx:70-76 | The map fails exactly when some project's `push` throws. |
| WorldMap.DistributeBuckets | components/world-map.tsx:69-76 | Each dot holds exactly the projects placed on it, in input order. |
| WorldMap.DotRegion | components/world-map.tsx:71-74 | Every project of a dot is an input project of the dot's region. |
| WorldMap.DistributeTotal | components/world-map.tsx:69-76 | No project is lost or duplicated: the dots together hold the placed projects. |
| WorldMap.GoalNumberOf | components/world-map.tsx:88 | The goal number is the value of the first digit run. |
| WorldMap.DotColorGoal | components/world-map.tsx:87-89 | A goal `…n…` with no earlier digit is drawn in goal `n`'s colour, with the fallback outside 1 to 17. |
| WorldMap.DotColorDefault | components/world-map.tsx:88-89 | A goal without digits is drawn in goal 1's colour. |
| WorldMap.DotsShown | components/world-map.tsx:83-84 | Every dot holding projects is drawn, with its count and its first project's colour. |
| WorldMap.DotsTotal | components/world-map.tsx:83-84 | Skipping empty dots loses no project: the drawn counts add up to the bucket sizes. |
| WorldMap.Render | components/world-map.tsx:31-108 | The drawn counts add up to the placed projects, and the map fails exactly when some `push` throws. |
| WorldMap.ShortSdgPrefix | components/world-map.tsx:141 | The short goal is a prefix of the goal, and the whole goal when it has at most two words. Otherwise the goal is the short goal, a space, and the remaining words joined by spaces. |
| WorldMap.Header | components/world-map.tsx:133 | The header starts with the region and ends with ` Projects`. |
| WorldMap.HeaderCount | components/world-map.tsx:133 | The number in the header reads back as the dot's project count. |
| WorldMap.HoverCard | components/world-map.tsx:136-155 | The card shows the first five projects with their names, statuses and a prefix of the goal. `+ k more` appears exactly for more than five, and shown plus more is all. |
| ReportModal.Sanitize | components/project-report-modal.tsx:26 | The length is kept and only `[a-z0-9_]` appear. A character becomes `_` exactly when it is not an ASCII letter or digit. Every ASCII letter or digit is kept, lower-cased. |
| ReportModal.SanitizeIdempotent | components/project-report-modal.tsx:26 | Sanitising twice is sanitising once. |
| ReportModal.SanitizeIgnoresCase | components/project-report-modal.tsx:26 | Names that differ only in ASCII case share a file name. |
| ReportModal.FileName | components/project-report-modal.tsx:26 | The file name is the sanitised name followed by `_report.pdf`. |
| ReportModal.FileNameInjective | components/project-report-modal.tsx:26 | Two projects share a file name exactly when their sanitised names agree. |
| ReportModal.OrElse | components/project-report-modal.tsx:86-128 | `value \|\| fallback`: the value when truthy, and the fallback otherwise, including for the empty string. |
| ReportModal.OrElseShown | components/project-report-modal.tsx:86-128 | With a non-empty fallback, a field never shows an empty text. |
| ReportModal.FundingSource | components/project-report-modal.tsx:132 | Donor, else funding source, else `Unknown`, and never empty. |
| ReportModal.Items | components/project-report-modal.tsx:138-147 | A non-empty array shows one entry per element, and anything else shows the single placeholder. |
| ReportModal.ToolItem | components/project-report-modal.tsx:170-182 | The rationale line always appears, and the context line appears exactly for a truthy context. |
| ReportModal.FileLinks | components/project-report-modal.tsx:188-205 | A note appears exactly when there are no files. Otherwise there is one link per file, with its URL and its name or `Unnamed File`. |
| ReportModal.Render | components/project-report-modal.tsx:16-205 | There is no dialog exactly when there is no project. |
| ReportModal.RenderComplete | components/project-report-modal.tsx:26-205 | Every field is stated: the title `Project Report: <name>`, the file name, and each single-value field as its value or its fallback text (`Not identified`, `No engagement ID available` for the ID and the hub, `No summary available`, `Unknown` for the region, donor-then-funding-source). The e-mail appears only when truthy. The lists are the items or their placeholder. Every single-value field shows some text, and every list shows at least one entry. Each list's placeholder (goals, indicators, tools) appears exactly when there is nothing to list. The file name ends with `_report.pdf`. |

## Left out

- Cloud clients, OAuth, credential pickles and Drive/GCS/BigQuery/HTTP I/O are outcome parameters, not implementations. The same goes for the document reader, the LLM and the index internals.
- `mimetypes.guess_extension`, `json.dumps`, `str()` of arbitrary objects, the clock and `tempfile` names are function or value parameters.
- The SQL text of the ledger queries is not modelled: quoting, injection and partitioning. The query is modelled as a search of the rows it selects. A `'` inside a link would break the query, or inject into it, and the model does not cover that.
- `get_fa_from_bigquery` and its legacy copy are left out. Each only runs a query that lists file URLs. The legacy copy also reads `GCP_REPORTS_ID` (python_backend/doc_processing.py:292), which is never defined, so it would raise `NameError`. That falls into its own `except`, which returns `[]`.
- The label threshold of the SDG impact graph is the predicate `SdgGraph.LabelShown` (count at least 8). It is a definition and states nothing further.
- Module import side effects are not modelled. Each module's availability flags are modelled as the state the imports leave behind.
- Processor.ExtractFileId: Python's `\w` in the Docs pattern is modelled as ASCII `[A-Za-z0-9_]`. A Docs URL whose path segment uses other Unicode word characters is not covered.
- Dashboard.Filtered: `toLowerCase` is modelled as ASCII lower-casing only.
- Dashboard.Filtered: a project's name is modelled as a string. The API keeps a NULL `Engagement_Description` as `null` (python_backend/api/projects_api.py:93), and then `project.name.toLowerCase()` throws at components/dashboard.tsx:102 whenever the search text is non-empty. The model does not cover that throw.
- ReportModal.Sanitize: JavaScript strings are UTF-16. A character outside the Basic Multilingual Plane becomes two `_` there and one here.
- ReportModal.Render: a truthy non-array `file_url` would make `.map` throw. Here the lists are typed as optional sequences, so that case is not modelled.
- WorldMap.Place: project ids are integers. Fractional and NaN ids, which JavaScript's `%` also accepts, are not modelled.
- WorldMap.HoverCard: the funding line (`toLocaleString`) is left out, because locale number formatting is outside the model.
- Floating-point layout is left out: dot sizes, card placement, label geometry and chart dimensions.
- Markup, styling, console logging and the 50 ms `setTimeout` are left out. Selection is modelled only by its final state and the sequence of values reported to the callback.
- The `sessionStorage` caching and fetching in the dashboard, the mock data and the tool description texts are left out. The tool names are kept, but their descriptions are not.
- Prototype keys (`__proto__` and similar) in the JavaScript object maps used for lookups are not modelled.
- Explorer.Shuffle: `Math.random` is replaced by a sequence of swap positions. Uniformity of the shuffle is not stated.
- Seqs.SortDesc: stability is stated only through `Seqs.SortSorted`, which says an already sorted input is kept. A general stability statement is not made.
- The legacy module's own Drive, GCS and HTTP downloads (python_backend/doc_processing.py from line 672) are textually the processor's, so they reuse its model. Both build `storage.Client()` outside the `try` (doc_processing.py:758, processor.py:302), so a failing client raises. The storage module differs: `get_storage_client()` (python_backend/storage/gcs.py:13-24) catches that failure, and its download returns None (gcs.py:61-63). Gcs.DownloadFile models that separately.
- Legacy.Mark: the availability flag comes from creating `LLM_Tracking.Processed_Documents` (python_backend/doc_processing.py:158-187), but the check and the mark use `{BQ_FA_DATASET}.processed_documents` (222, 270). The inserted row also lacks the `process_date` column that the created table requires (163, 259-264). The model keeps one row list and takes the insert and query outcomes as parameters, so a failure either mismatch causes is covered only as a failed insert or query. The link between table identity and those outcomes is not modelled.
- The query answering in python_backend/document/query.py and the Flask routes are not part of this model.

## Findings

| source | as written | input that shows it | evidently intended | confidence | as-written member | corrected member |
|---|---|---|---|---|---|---|
| components/project-explorer.tsx:361-396 | Hidden pages get an ellipsis only at page 6 or `total - 3`. So a hidden run can have no ellipsis, and one run can have two. | 12 pages, page 8 current: page 10 is blank between links 9 and 11. 11 pages, page 1 current: ellipses at 6 and 8 around blank 7. | One ellipsis at the start of every run of hidden pages | not executed | Explorer.ControlAsWritten, Explorer.UnmarkedGap, Explorer.DoubleEllipsis | Explorer.ControlAt, Explorer.GapsMarked, Explorer.EllipsesSeparated |
| python_backend/document/processor.py:160-163 | `process_document(file_link=..., index_name=...)` passes a keyword the function lacks, so every link that is not skipped raises `TypeError`. | Any link with `skip_processed_check=True` | Call `process_document(link)`, then read the keys its result holds (see the 166-167 row) | not executed | Batch.ProcessCallRejected, Batch.RunAsWritten, Batch.AsWrittenDiffers | Batch.IntendedCallsBind, Batch.ProcessDocumentLinks, Batch.RunDiscipline |
| python_backend/document/processor.py:166-167 | The loop reads `result["description"]` and `result["index"]`, but `process_document` returns only `file_id` and `text_doc_fa` (lines 111-114). The right-hand side is evaluated first, so `KeyError: 'index'` is raised and caught at 180, and a processed link is marked `failed`. This remains once the call at 160-163 is fixed. | Any link that downloads and reads, with the calls at 160-163 and 176-186 fixed | File the result under `file_id` with its `text_doc_fa` | not executed | Batch.ResultLookupAsWritten | Batch.ResultLookupIntended, Batch.ReadResult |
| python_backend/document/processor.py:172 | `mark_document_as_processed(link, index_name)` records the index name as the status. | Link `a`, index `idx`: the row's status is `idx` | Status `success` | not executed | Batch.SuccessMarkRecordsIndexName | Batch.IntendedCallsBind, Batch.MarkFor |
| python_backend/document/processor.py:176-186 | The failure marks pass the index name positionally and `status=` as well, so `TypeError` is raised. The mark at 184 sits inside `except`, so the loop aborts with no row written. | Any link whose processing fails | `mark_document_as_processed(link, status="failed", error_message=...)` | not executed | Batch.FailureMarkRejected, Batch.AsWrittenNeverProcesses | Batch.IntendedCallsBind, Batch.RunAppendsRows |
| python_backend/doc_processing.py:212-213 | `folder_name` is not bound in `is_document_already_processed`. The `NameError` is caught at 234, so the check is always false. | Available ledger holding a `success` row for the link | Filter by link and index name | not executed | Legacy.IsProcessedAsWritten | Legacy.IsProcessedIntended, Legacy.MarkThenCheck |
| python_backend/doc_processing.py:502 | The ledger check is called with three arguments but takes two. The `TypeError` is raised outside the `try`, so the batch aborts. | `skip_processed_check=False` with one link | `is_document_already_processed(link, index_name)` | not executed | Legacy.CheckCallRejected, Legacy.ProcessLinks | Legacy.CheckCallBinds, Legacy.VisitChecked, Legacy.CheckedRevisitSkips |
| python_backend/doc_processing.py:420 | `FirestoreVectorStore` is never imported. The `NameError` is caught at 470, so no link is ever indexed and every link is recorded as `failed`. | Any link with `skip_processed_check=True` | Import the vector store class | not executed | Legacy.VisitAllAsWritten | Legacy.CreateIndex, Legacy.VisitAllCounts |
| python_backend/storage/drive.py:22 | `get_drive_service` calls `_authenticate_drive_api`, which this module neither defines nor imports. The `NameError` is caught at 24, so no client comes back and none is cached, and `download_file` never downloads. | `https://drive.google.com/file/d/abc/view` in a fresh process | Import the authenticator the document processor defines | not executed | Drive.DownloadNeverAsWritten | Drive.DownloadBound, Drive.DownloadWith |
