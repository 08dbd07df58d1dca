/** The Cloud Storage helper: the `gs://` URI split used by both download
    paths, the blob path and URI built by `upload_file`, the directory
    filter of `list_files` and the bucket-name guard. The storage client
    is outside the model; whether it exists and whether its calls succeed
    are parameters. */
module Gcs {
  import opened Wrappers
  import opened Strs
  import Seqs
  import Mime

  /** `file_link[5:].split('/', 1)`: `None` when there are fewer than two
      parts, else the bucket and the blob name. The scheme is not checked. */
  function SplitUri(link: string): (r: Option<(string, string)>)
    ensures r.None? <==> '/' !in Drop(link, 5)
    ensures r.Some? ==> '/' !in r.value.0 && r.value.0 + "/" + r.value.1 == Drop(link, 5)
  {
    var rest := Drop(link, 5);
    match Find(rest, "/")
    case None =>
      assert forall k :: 0 <= k < |rest| ==> !OccursAt(rest, "/", k);
      assert forall k :: 0 <= k < |rest| ==> rest[k] != '/' by {
        forall k | 0 <= k < |rest| ensures rest[k] != '/' {
          assert !OccursAt(rest, "/", k);
          assert rest[k..k + 1] == [rest[k]];
        }
      }
      None
    case Some(i) =>
      assert rest[i..i + 1] == "/";
      assert forall k :: 0 <= k < i ==> rest[k] != '/' by {
        forall k | 0 <= k < i ensures rest[k] != '/' {
          assert !OccursAt(rest, "/", k);
          assert rest[k..k + 1] == [rest[k]];
        }
      }
      assert rest == rest[..i] + "/" + rest[i + 1..];
      Some((rest[..i], rest[i + 1..]))
  }

  /** Splitting inverts joining: any five-character scheme, a bucket free of
      `/`, then `/` and any blob name. */
  lemma SplitJoin(scheme: string, bucket: string, blob: string)
    requires |scheme| == 5
    requires '/' !in bucket
    ensures SplitUri(scheme + bucket + "/" + blob) == Some((bucket, blob))
  {
    var link := scheme + bucket + "/" + blob;
    var rest := bucket + "/" + blob;
    assert Drop(link, 5) == rest;
    assert OccursAt(rest, "/", |bucket|);
    forall k | 0 <= k < |bucket|
      ensures !OccursAt(rest, "/", k)
    {
      assert rest[k] == bucket[k];
      assert rest[k..k + 1] == [rest[k]];
    }
    assert Find(rest, "/") == Some(|bucket|);
    assert rest[..|bucket|] == bucket;
    assert rest[|bucket| + 1..] == blob;
  }

  /** `blob.content_type or 'application/octet-stream'` followed by
      `guess_extension(...) or '.bin'`; an unset content type is `""`. */
  function BlobSuffix(guess: Mime.Guesser, contentType: string): (ext: string)
    ensures ext != ""
    ensures contentType != "" ==> ext == Mime.GuessOrBin(guess, contentType)
    ensures contentType == "" ==> ext == Mime.GuessOrBin(guess, Mime.OctetStream)
  {
    Mime.GuessOrBin(guess, if contentType == "" then Mime.OctetStream else contentType)
  }

  /** `ensure_bucket_exists`: the bucket (named by itself) or `None`. */
  function EnsureBucketExists(name: string, client: bool, bucketOk: bool): (r: Option<string>)
    ensures name == "" ==> r.None?
    ensures r.Some? <==> name != "" && client && bucketOk
    ensures r.Some? ==> r.value == name
  {
    if name == "" then None
    else if !client then None
    else if bucketOk then Some(name)
    else None
  }

  /** `download_file`: the path of the temporary file, or `None`. The
      client check comes before the URI is parsed. */
  function DownloadFile(link: string, client: bool, contentType: string, transferOk: bool,
                        guess: Mime.Guesser, tempStem: string): (r: Option<string>)
    ensures !client ==> r.None?
    ensures r.Some? <==> client && SplitUri(link).Some? && transferOk
    ensures r.Some? ==> r.value == tempStem + BlobSuffix(guess, contentType)
  {
    if !client then None
    else match SplitUri(link)
      case None => None
      case Some(_) => if transferOk then Some(tempStem + BlobSuffix(guess, contentType)) else None
  }

  /** The temporary file `download_file` leaves behind without returning
      it: the file is created with `delete=False` before the blob is
      fetched into it, so when the fetch raises the call returns `None` and
      nothing removes the file. */
  function DownloadStray(link: string, client: bool, contentType: string, transferOk: bool,
                         guess: Mime.Guesser, tempStem: string): (s: Option<string>)
    ensures s.Some? <==> client && SplitUri(link).Some? && !transferOk
    ensures s.Some? ==> s.value == tempStem + BlobSuffix(guess, contentType)
  {
    if client && SplitUri(link).Some? && !transferOk then Some(tempStem + BlobSuffix(guess, contentType))
    else None
  }

  /** A temporary file is created exactly when the client exists and the
      URI splits; it is then either returned or left behind, never both,
      and it is the same file either way. */
  lemma DownloadCreates(link: string, client: bool, contentType: string, transferOk: bool,
                        guess: Mime.Guesser, tempStem: string)
    ensures var r := DownloadFile(link, client, contentType, transferOk, guess, tempStem);
      var s := DownloadStray(link, client, contentType, transferOk, guess, tempStem);
      && ((r.Some? || s.Some?) <==> client && SplitUri(link).Some?)
      && !(r.Some? && s.Some?)
      && (r.Some? ==> r == DownloadStray(link, client, contentType, false, guess, tempStem))
  {
  }

  /** POSIX `os.path.join(a, b)` for two components. */
  function PathJoin(a: string, b: string): (r: string)
    ensures EndsWith(r, b)
    ensures StartsWith(b, "/") ==> r == b
    ensures !StartsWith(b, "/") && a != "" && !EndsWith(a, "/") ==> r == a + "/" + b
    ensures !StartsWith(b, "/") && (a == "" || EndsWith(a, "/")) ==> r == a + b
  {
    if |b| > 0 && b[0] == '/' then b
    else if a == "" || a[|a| - 1] == '/' then
      assert (a + b)[|a|..] == b;
      a + b
    else
      assert (a + "/" + b)[|a| + 1..] == b;
      a + "/" + b
  }

  /** The blob path of `upload_file`: the destination file name (the local
      file's base name when none is given) joined under the folder, with
      backslashes turned into slashes. */
  function BlobPath(localPath: string, folder: string, filename: Option<string>): (p: string)
    ensures var name := if filename.None? || filename.value == "" then Basename(localPath) else filename.value;
      EndsWith(p, ReplaceChar(name, '\\', '/')) && '\\' !in p
  {
    var name := if filename.None? || filename.value == "" then Basename(localPath) else filename.value;
    var joined := PathJoin(folder, name);
    ReplaceCharSuffix(joined, name, '\\', '/');
    ReplaceChar(joined, '\\', '/')
  }

  /** `upload_file`: the `gs://` URI of the uploaded blob, or `None`. */
  function UploadFile(localPath: string, localExists: bool, client: bool, folder: string,
                      filename: Option<string>, bucket: string, uploadOk: bool): (r: Option<string>)
    ensures !localExists ==> r.None?
    ensures r.Some? <==> localExists && client && uploadOk
    ensures r.Some? ==> r.value == "gs://" + bucket + "/" + BlobPath(localPath, folder, filename)
  {
    if !localExists || !client then None
    else if uploadOk then Some("gs://" + bucket + "/" + BlobPath(localPath, folder, filename))
    else None
  }

  /** Round trip: the URI `upload_file` returns splits back into the bucket
      and the blob path, so `download_file` fetches what was uploaded. */
  lemma UploadThenSplit(localPath: string, folder: string, filename: Option<string>, bucket: string)
    requires '/' !in bucket
    ensures var uri := UploadFile(localPath, true, true, folder, filename, bucket, true);
      uri.Some? && SplitUri(uri.value) == Some((bucket, BlobPath(localPath, folder, filename)))
  {
    SplitJoin("gs://", bucket, BlobPath(localPath, folder, filename));
  }

  /** `list_files`: the listed names that do not end in `/`, in order. */
  function ListFiles(client: bool, listOk: bool, names: seq<string>): (r: Option<seq<string>>)
    ensures r.Some? <==> client && listOk
    ensures r.Some? ==> forall i :: 0 <= i < |r.value| ==> !EndsWith(r.value[i], "/")
  {
    if client && listOk then Some(Seqs.Filter(names, IsFileName)) else None
  }

  predicate IsFileName(name: string) {
    !EndsWith(name, "/")
  }

  /** Exactly the non-directory names survive, in their listed order. */
  lemma ListFilesExact(names: seq<string>, more: seq<string>, x: string)
    ensures x in ListFiles(true, true, names).value <==> x in names && !EndsWith(x, "/")
    ensures ListFiles(true, true, names + more).value
         == ListFiles(true, true, names).value + ListFiles(true, true, more).value
  {
    Seqs.FilterMembership(names, IsFileName, x);
    Seqs.FilterAppend(names, more, IsFileName);
  }
}
