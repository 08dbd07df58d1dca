/** The document processor: sorting a link into one of three download
    routes, the per-route download decisions, Drive file-id extraction by
    regular expression, and `process_document`, which flattens the extracted
    text and always removes its temporary file. Network, Drive, GCS and the
    Docling reader are outside the model; their outcomes are parameters. */
module Processor {
  import opened Wrappers
  import opened Strs
  import Mime
  import Gcs
  import opened Patterns

  // ---------------------------------------------------------------------
  // Routing

  datatype Route = Drive | Gcs | Http

  const DriveHost := "https://drive.google.com"
  const DocsHost := "docs.google.com"
  const GcsScheme := "gs://"

  /** `create_tempfile_path`'s dispatch: Drive first, then GCS, else HTTP. */
  function Classify(link: string): (r: Route)
    ensures r == Drive <==> StartsWith(link, DriveHost) || Contains(link, DocsHost)
    ensures r == Gcs <==> !StartsWith(link, DriveHost) && !Contains(link, DocsHost) && StartsWith(link, GcsScheme)
    ensures r == Http <==> !StartsWith(link, DriveHost) && !Contains(link, DocsHost) && !StartsWith(link, GcsScheme)
  {
    if StartsWith(link, DriveHost) || Contains(link, DocsHost) then Drive
    else if StartsWith(link, GcsScheme) then Gcs
    else Http
  }

  /** A `gs://` link goes to GCS exactly when it does not mention the Docs
      host anywhere: the Drive test is made first and the Drive prefix can
      never match a `gs://` link. */
  lemma GcsRoute(link: string)
    requires StartsWith(link, GcsScheme)
    ensures Classify(link) == Gcs <==> !Contains(link, DocsHost)
  {
    assert link[0] == 'g' && DriveHost[0] == 'h';
    if |DriveHost| <= |link| {
      assert link[..|DriveHost|][0] == link[0];
    }
  }

  // ---------------------------------------------------------------------
  // Drive file ids (the regular-expression list of `_extract_file_id`)

  /** `_extract_file_id`: the three patterns in order, each searched
      leftmost-first; the first pattern that matches anywhere wins. */
  const LinkPatterns := [FileLink, OpenLink, DocsLink]

  function ExtractFileId(url: string): (r: Option<string>)
    ensures r.None? <==> forall k :: !MatchAt(FileLink, url, k) && !MatchAt(OpenLink, url, k) && !MatchAt(DocsLink, url, k)
    ensures Search(FileLink, url).Some? ==> r == Some(Group(FileLink, url, Search(FileLink, url).value))
    ensures Search(FileLink, url).None? && Search(OpenLink, url).Some? ==>
      r == Some(Group(OpenLink, url, Search(OpenLink, url).value))
    ensures Search(FileLink, url).None? && Search(OpenLink, url).None? && Search(DocsLink, url).Some? ==>
      r == Some(Group(DocsLink, url, Search(DocsLink, url).value))
    ensures r.Some? ==> |r.value| > 0
    ensures r.Some? && Search(OpenLink, url).None? ==> '/' !in r.value
    ensures r.Some? && Search(FileLink, url).None? && Search(OpenLink, url).Some? ==> '&' !in r.value
    ensures r.Some? && Search(FileLink, url).Some? ==> '/' !in r.value
  {
    assert LinkPatterns[1..] == [OpenLink, DocsLink];
    assert LinkPatterns[1..][1..] == [DocsLink];
    assert [DocsLink][1..] == [];
    FirstGroup(LinkPatterns, url)
  }

  /** A canonical `/file/d/` link gives back exactly the id it was built
      from, whatever follows the id after a `/` (such as `/view`). */
  lemma FileIdRoundTrip(id: string, tail: string)
    requires |id| > 0 && '/' !in id
    requires tail == "" || tail[0] == '/'
    ensures ExtractFileId(FilePrefix + id + tail) == Some(id)
  {
    var url := FilePrefix + id + tail;
    var n := |FilePrefix|;
    assert url[..n] == FilePrefix;
    assert MatchAt(FileLink, url, 0);
    assert forall k :: n <= k < n + |id| ==> url[k] == id[k - n];
    RunEndAt(url, n, n + |id|, '/');
    assert url[n..n + |id|] == id;
  }

  /** The same for `open?id=` links, up to the next `&`. Slashes are
      excluded after the host, or a later `/file/d/` link would win. */
  lemma OpenIdRoundTrip(id: string, tail: string)
    requires |id| > 0 && '&' !in id && '/' !in id
    requires '/' !in tail
    requires tail == "" || tail[0] == '&'
    ensures ExtractFileId(OpenPrefix + id + tail) == Some(id)
  {
    var url := OpenPrefix + id + tail;
    var n := |OpenPrefix|;
    assert url[..n] == OpenPrefix;
    assert MatchAt(OpenLink, url, 0);
    forall j | 25 <= j < |url|
      ensures url[j] != '/'
    {
      if j < n {
        assert url[j] == OpenPrefix[j];
      } else if j < n + |id| {
        assert url[j] == id[j - n];
      } else {
        assert url[j] == tail[j - n - |id|];
      }
    }
    forall k
      ensures !MatchAt(FileLink, url, k)
    {
      if 0 <= k && k + |FilePrefix| <= |url| {
        assert url[k + 31] != '/';
        assert url[k..k + |FilePrefix|][31] == url[k + 31];
      }
    }
    assert forall k :: n <= k < n + |id| ==> url[k] == id[k - n];
    RunEndAt(url, n, n + |id|, '&');
    assert url[n..n + |id|] == id;
  }

  // ---------------------------------------------------------------------
  // Per-route downloads

  /** The outcome of a call into code outside the model. */
  datatype Fetch =
    | Fetched(path: string)   // a temporary file now exists at `path`
    | Abandoned(path: string) // the file at `path` was created, then the transfer
                              // raised: the route returned None and the file stays
    | Failed                  // the route logged an error and returned None
    | Raised                  // an exception escaped the route
  {
    /** The route created a temporary file, whatever it returned. */
    predicate Created() { Fetched? || Abandoned? }
  }

  datatype Auth = NoCredentials | AuthRaises | Authenticated
  datatype Metadata = MetaMissing | MetaRaises | Meta(name: Option<string>, mimeType: Option<string>)
  datatype HttpReply = RequestRaises | Reply(status: int, contentType: Option<string>)

  /** Everything a download depends on that the model does not compute. */
  datatype Env = Env(
    auth: Auth,                  // `_authenticate_drive_api`
    metadata: Metadata,          // `_get_drive_file_metadata`
    storageClient: bool,         // `storage.Client()` constructs
    blobContentType: string,     // `blob.content_type` ("" when unset)
    http: HttpReply,             // `requests.get`
    transferOk: bool,            // the byte transfer into the temp file
    guess: Mime.Guesser,         // `mimetypes.guess_extension`
    tempStem: string)            // `NamedTemporaryFile` name before its suffix

  function TempPath(env: Env, suffix: string): (p: string)
    ensures EndsWith(p, suffix)
  {
    assert (env.tempStem + suffix)[|env.tempStem|..] == suffix;
    env.tempStem + suffix
  }

  /** `_download_from_google_drive`. */
  function DriveDownload(link: string, env: Env): (f: Fetch)
    ensures ExtractFileId(link).None? ==> f == Failed
    ensures f.Raised? <==> ExtractFileId(link).Some? && env.auth == AuthRaises
    ensures f.Created() <==> ExtractFileId(link).Some? && env.auth == Authenticated && env.metadata.Meta?
    ensures f.Created() ==> (f.Fetched? <==> env.transferOk)
    ensures f.Created() ==> EndsWith(f.path,
      Mime.DownloadPlan(env.metadata.mimeType.GetOr(Mime.OctetStream), env.guess).ext)
  {
    match ExtractFileId(link)
    case None => Failed
    case Some(_) =>
      match env.auth
      case NoCredentials => Failed
      case AuthRaises => Raised
      case Authenticated =>
        match env.metadata
        case MetaMissing => Failed
        case MetaRaises => Failed
        case Meta(_, mime) =>
          var plan := Mime.DownloadPlan(mime.GetOr(Mime.OctetStream), env.guess);
          if env.transferOk then Fetched(TempPath(env, plan.ext)) else Abandoned(TempPath(env, plan.ext))
  }

  /** `_download_from_gcs`: the client is built before the split and
      outside the `try`. */
  function GcsDownload(link: string, env: Env): (f: Fetch)
    ensures !env.storageClient ==> f == Raised
    ensures env.storageClient && Gcs.SplitUri(link).None? ==> f == Failed
    ensures f.Created() <==> env.storageClient && Gcs.SplitUri(link).Some?
    ensures f.Created() ==> (f.Fetched? <==> env.transferOk)
    ensures f.Created() ==> EndsWith(f.path, Gcs.BlobSuffix(env.guess, env.blobContentType))
  {
    if !env.storageClient then Raised
    else match Gcs.SplitUri(link)
      case None => Failed
      case Some(_) =>
        var path := TempPath(env, Gcs.BlobSuffix(env.guess, env.blobContentType));
        if env.transferOk then Fetched(path) else Abandoned(path)
  }

  /** `_download_from_http`: only status 200 is accepted. */
  function HttpDownload(env: Env): (f: Fetch)
    ensures !f.Raised?
    ensures f.Created() <==> env.http.Reply? && env.http.status == 200
    ensures f.Created() ==> (f.Fetched? <==> env.transferOk)
    ensures env.http.Reply? && env.http.status != 200 ==> f == Failed
    ensures f.Created() ==> EndsWith(f.path, Mime.GuessOrBin(env.guess, env.http.contentType.GetOr(Mime.OctetStream)))
  {
    match env.http
    case RequestRaises => Failed
    case Reply(status, ct) =>
      if status != 200 then Failed
      else
        var path := TempPath(env, Mime.GuessOrBin(env.guess, ct.GetOr(Mime.OctetStream)));
        if env.transferOk then Fetched(path) else Abandoned(path)
  }

  /** `create_tempfile_path`. */
  function CreateTempfilePath(link: string, env: Env): (f: Fetch)
    ensures Classify(link) == Drive ==> f == DriveDownload(link, env)
    ensures Classify(link) == Gcs ==> f == GcsDownload(link, env)
    ensures Classify(link) == Http ==> f == HttpDownload(env)
  {
    match Classify(link)
    case Drive => DriveDownload(link, env)
    case Gcs => GcsDownload(link, env)
    case Http => HttpDownload(env)
  }

  /** Any reply status other than 200, success statuses such as 204 or
      206 included, fetches nothing. */
  lemma OnlyOkStatus(link: string, env: Env)
    requires Classify(link) == Http
    requires env.http.Reply? && env.http.status != 200
    ensures CreateTempfilePath(link, env) == Failed
  {
  }

  // ---------------------------------------------------------------------
  // process_document

  /** The Docling reader's outcome on the temporary file. */
  datatype Extraction = Extracted(segments: seq<string>) | ExtractRaises

  datatype DocResult = DocResult(fileId: string, text: string)

  /** Each segment stripped, in order. */
  function StripAll(segs: seq<string>): (r: seq<string>)
    ensures |r| == |segs|
    ensures forall i :: 0 <= i < |segs| ==> r[i] == Strip(segs[i])
  {
    seq(|segs|, i requires 0 <= i < |segs| => Strip(segs[i]))
  }

  /** `' '.join(doc.text.strip() for doc in docs)`. */
  function Flatten(segs: seq<string>): string {
    Join(StripAll(segs), " ")
  }

  /** The flattened text is the stripped segments with one space between
      neighbours: appending a segment appends a space and its stripped
      text, and the length is the stripped lengths plus the separators. */
  lemma FlattenSnoc(segs: seq<string>, s: string)
    requires |segs| > 0
    ensures Flatten(segs + [s]) == Flatten(segs) + " " + Strip(s)
  {
    assert StripAll(segs + [s]) == StripAll(segs) + [Strip(s)];
    JoinAppend(StripAll(segs), [Strip(s)], " ");
  }

  lemma FlattenLength(segs: seq<string>)
    requires |segs| > 0
    ensures |Flatten(segs)| == SumLengths(StripAll(segs)) + |segs| - 1
  {
    JoinLength(StripAll(segs), " ", SumLengths(StripAll(segs)));
  }

  /** `process_document` together with the temporary files it leaves
      behind: `None` when the download gives nothing or anything raises;
      otherwise the full link as id and the flattened text. A returned
      file is removed in the `finally`, on both paths; a file whose
      transfer failed was never returned, so it stays behind. */
  function ProcessDocument(link: string, env: Env, ex: Extraction, scratch: set<string>)
    : (out: (Option<DocResult>, set<string>))
    ensures !CreateTempfilePath(link, env).Created() ==> out == (None, scratch)
    ensures CreateTempfilePath(link, env).Abandoned? ==>
      out == (None, scratch + {CreateTempfilePath(link, env).path})
    ensures CreateTempfilePath(link, env).Fetched? ==>
      var p := CreateTempfilePath(link, env).path;
      p !in out.1 && out.1 == scratch - {p}
    ensures out.0.Some? <==> CreateTempfilePath(link, env).Fetched? && ex.Extracted?
    ensures out.0.Some? ==> out.0.value == DocResult(link, Flatten(ex.segments))
  {
    match CreateTempfilePath(link, env)
    case Fetched(p) =>
      var during := scratch + {p};
      var after := during - {p};
      (match ex
       case Extracted(segs) => (Some(DocResult(link, Flatten(segs))), after)
       case ExtractRaises => (None, after))
    case Abandoned(p) => (None, scratch + {p})
    case _ => (None, scratch)
  }
}
