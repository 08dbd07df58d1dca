/** The Drive storage helper: its own file-id extractor, whose rules look
    for path segments and query parameters without ever checking the host,
    and the download decision, which shares the Workspace export table.
    The Drive API itself is outside the model. */
module Drive {
  import opened Wrappers
  import opened Strs
  import opened Patterns
  import Mime

  /** The rules of `extract_file_id`, in the order tried. */
  const RulePatterns := [FilePath, IdQuery, DocPath]

  /** `extract_file_id`: `None` for the empty URL, otherwise the group of
      the first rule that matches anywhere, at its leftmost match. */
  function ExtractFileId(url: string): (r: Option<string>)
    ensures url == "" ==> r.None?
    ensures r.None? <==> forall k :: !MatchAt(FilePath, url, k) && !MatchAt(IdQuery, url, k) && !MatchAt(DocPath, url, k)
    ensures Search(FilePath, url).Some? ==> r == Some(Group(FilePath, url, Search(FilePath, url).value))
    ensures Search(FilePath, url).None? && Search(IdQuery, url).Some? ==>
      r == Some(Group(IdQuery, url, Search(IdQuery, url).value))
    ensures Search(FilePath, url).None? && Search(IdQuery, url).None? && Search(DocPath, url).Some? ==>
      r == Some(Group(DocPath, url, Search(DocPath, url).value))
    ensures r.Some? ==> |r.value| > 0
  {
    assert RulePatterns[1..] == [IdQuery, DocPath];
    assert RulePatterns[1..][1..] == [DocPath];
    assert [DocPath][1..] == [];
    if url == "" then
      assert forall pat, k :: !MatchAt(pat, url, k) by {
        forall pat, k
          ensures !MatchAt(pat, url, k)
        {
          MatchInside(pat, url, k);
        }
      }
      None
    else FirstGroup(RulePatterns, url)
  }

  /** Any text before `/file/d/` in which the segment does not already
      start: the id is the slash-free run that follows, query string
      included (`abc?usp=sharing` comes back whole). */
  lemma FileSegmentRoundTrip(prefix: string, id: string, tail: string)
    requires forall k :: 0 <= k < |prefix| ==> !OccursAt(prefix + FileSegment, FileSegment, k)
    requires |id| > 0 && '/' !in id
    requires tail == "" || tail[0] == '/'
    ensures ExtractFileId(prefix + FileSegment + id + tail) == Some(id)
  {
    var w := prefix + FileSegment;
    var url := w + id + tail;
    var n := |w|;
    assert url[..n] == w;
    assert url[|prefix|..n] == FileSegment;
    assert MatchAt(FilePath, url, |prefix|);
    forall k | 0 <= k < |prefix|
      ensures !MatchAt(FilePath, url, k)
    {
      if OccursAt(url, FileSegment, k) {
        assert k + |FileSegment| <= n;
        assert url[k..k + |FileSegment|] == w[k..k + |FileSegment|];
        assert OccursAt(w, FileSegment, k);
      }
    }
    assert Search(FilePath, url) == Some(|prefix|);
    assert forall k :: n <= k < n + |id| ==> url[k] == id[k - n];
    RunEndAt(url, n, n + |id|, '/');
    assert url[n..n + |id|] == id;
  }

  const DriveHost := "https://drive.google.com"
  const DocsHost := "https://docs.google.com"

  /** The documented `https://drive.google.com/file/d/FILE_ID/view` form
      gives back its id. */
  lemma DocumentedFileLink(id: string)
    requires |id| > 0 && '/' !in id
    ensures ExtractFileId(DriveHost + FileSegment + id + "/view") == Some(id)
  {
    var w := DriveHost + FileSegment;
    forall k | 0 <= k < |DriveHost|
      ensures !OccursAt(w, FileSegment, k)
    {
      OccursChars(w, FileSegment, k);
      assert w[k] == DriveHost[k];
      assert k + 1 < |DriveHost| ==> w[k + 1] == DriveHost[k + 1];
    }
    FileSegmentRoundTrip(DriveHost, id, "/view");
  }

  /** The documented `https://docs.google.com/document/d/FILE_ID/edit`
      form, and its spreadsheet and presentation siblings, give back an id
      holding no `/`, `?` or `&`. */
  lemma DocumentedDocsLink(seg: string, id: string)
    requires seg == DocumentSegment || seg == SpreadsheetsSegment || seg == PresentationSegment
    requires |id| > 0 && '/' !in id && '?' !in id && '&' !in id
    ensures ExtractFileId(DocsHost + seg + id + "/edit") == Some(id)
  {
    var url := DocsHost + seg + id + "/edit";
    DocsLinkChars(seg, id);
    DocsNoFilePath(seg, id);
    DocsNoIdQuery(seg, id);
    assert Search(FilePath, url).None?;
    assert Search(IdQuery, url).None?;
    DocsNoEarlySegment(seg, id);
    DocsSegmentFound(seg, id);
    DocsSegmentGroup(seg, id);
  }

  /** No `/file/d/` occurs in a documented Docs link. */
  lemma DocsNoFilePath(seg: string, id: string)
    requires seg == DocumentSegment || seg == SpreadsheetsSegment || seg == PresentationSegment
    requires '/' !in id && '?' !in id && '&' !in id
    ensures forall k :: !MatchAt(FilePath, DocsHost + seg + id + "/edit", k)
  {
    var url := DocsHost + seg + id + "/edit";
    DocsLinkChars(seg, id);
    forall k
      ensures !MatchAt(FilePath, url, k)
    {
      OccursChars(url, FileSegment, k);
      if 0 <= k && k + |FileSegment| <= |url| {
        assert url[k] != '/' || url[k + 1] != 'f' || url[k + 5] != '/' || url[k + 6] != 'd';
      }
    }
  }

  /** Neither `?` nor `&` occurs in a documented Docs link. */
  lemma DocsNoIdQuery(seg: string, id: string)
    requires seg == DocumentSegment || seg == SpreadsheetsSegment || seg == PresentationSegment
    requires '/' !in id && '?' !in id && '&' !in id
    ensures forall k :: !MatchAt(IdQuery, DocsHost + seg + id + "/edit", k)
  {
    DocsLinkChars(seg, id);
  }

  /** The segment rule does not match inside the host. */
  lemma DocsNoEarlySegment(seg: string, id: string)
    requires seg == DocumentSegment || seg == SpreadsheetsSegment || seg == PresentationSegment
    requires '/' !in id && '?' !in id && '&' !in id
    ensures forall k :: 0 <= k < |DocsHost| ==> !MatchAt(DocPath, DocsHost + seg + id + "/edit", k)
  {
    SegmentNotInHost(seg, id, DocumentSegment);
    SegmentNotInHost(seg, id, SpreadsheetsSegment);
    SegmentNotInHost(seg, id, PresentationSegment);
  }

  /** One Docs segment does not occur inside the host. */
  lemma SegmentNotInHost(seg: string, id: string, sg: string)
    requires seg == DocumentSegment || seg == SpreadsheetsSegment || seg == PresentationSegment
    requires sg == DocumentSegment || sg == SpreadsheetsSegment || sg == PresentationSegment
    requires '/' !in id && '?' !in id && '&' !in id
    ensures forall k :: 0 <= k < |DocsHost| ==> !OccursAt(DocsHost + seg + id + "/edit", sg, k)
  {
    var url := DocsHost + seg + id + "/edit";
    DocsLinkChars(seg, id);
    forall k | 0 <= k < |DocsHost|
      ensures !OccursAt(url, sg, k)
    {
      OccursChars(url, sg, k);
      assert url[k] != '/' || url[k + 1] != sg[1] || url[k + 4] != sg[4];
    }
  }

  /** The segment rule matches where the segment is written, and that is
      what the search finds. */
  lemma DocsSegmentFound(seg: string, id: string)
    requires seg == DocumentSegment || seg == SpreadsheetsSegment || seg == PresentationSegment
    requires |id| > 0 && '/' !in id
    requires forall k :: 0 <= k < |DocsHost| ==> !MatchAt(DocPath, DocsHost + seg + id + "/edit", k)
    ensures var url := DocsHost + seg + id + "/edit";
      Search(DocPath, url) == Some(|DocsHost|) && SegmentAt(url, |DocsHost|) == Some(seg)
  {
    var h := |DocsHost|;
    var url := DocsHost + seg + id + "/edit";
    var s := h + |seg|;
    assert url[h..s] == seg;
    assert url[s] == id[0];
    SegmentAtWritten(url, h, seg);
    SearchFinds(DocPath, url, h);
  }

  /** The group after the segment is the id. */
  lemma DocsSegmentGroup(seg: string, id: string)
    requires seg == DocumentSegment || seg == SpreadsheetsSegment || seg == PresentationSegment
    requires |id| > 0 && '/' !in id
    requires var url := DocsHost + seg + id + "/edit";
      MatchAt(DocPath, url, |DocsHost|) && SegmentAt(url, |DocsHost|) == Some(seg)
    ensures Group(DocPath, DocsHost + seg + id + "/edit", |DocsHost|) == id
  {
    var url := DocsHost + seg + id + "/edit";
    var s := |DocsHost| + |seg|;
    var e := s + |id|;
    assert forall k :: s <= k < e ==> url[k] == id[k - s];
    assert url[e] == '/';
    RunEndAt(url, s, e, '/');
    assert url[s..e] == id;
  }

  /** Where the characters the three patterns look for sit in a documented
      Docs link. */
  lemma DocsLinkChars(seg: string, id: string)
    requires seg == DocumentSegment || seg == SpreadsheetsSegment || seg == PresentationSegment
    requires '/' !in id && '?' !in id && '&' !in id
    ensures var url := DocsHost + seg + id + "/edit"; var s := |DocsHost| + |seg|;
      && (forall j :: 0 <= j < |url| && url[j] == '/' ==>
            j == 6 || j == 7 || j == |DocsHost| || j == s - 3 || j == s - 1 || j == s + |id|)
      && (forall j :: 0 <= j < |url| ==> url[j] != '?' && url[j] != '&')
      && url[8] == 'd' && url[11] == 's' && url[7] == '/'
      && url[|DocsHost| + 1] == seg[1] && url[s - 2] == 'd'
      && url[s + |id| + 1] == 'e'
  {
    var url := DocsHost + seg + id + "/edit";
    var h := |DocsHost|;
    var s := h + |seg|;
    HostChars();
    SegmentChars(seg);
    forall j | 0 <= j < |url|
      ensures url[j] == '/' ==> j == 6 || j == 7 || j == h || j == s - 3 || j == s - 1 || j == s + |id|
      ensures url[j] != '?' && url[j] != '&'
    {
      if j < h {
        assert url[j] == DocsHost[j];
      } else if j < s {
        assert url[j] == seg[j - h];
      } else if j < s + |id| {
        assert url[j] == id[j - s];
      } else {
        assert url[j] == "/edit"[j - s - |id|];
      }
    }
  }

  /** The Docs host has slashes only in its scheme separator, and no `?`
      or `&`. */
  lemma HostChars()
    ensures forall i :: 0 <= i < |DocsHost| && DocsHost[i] == '/' ==> i == 6 || i == 7
    ensures forall i :: 0 <= i < |DocsHost| ==> DocsHost[i] != '?' && DocsHost[i] != '&'
  {
  }

  /** A Docs segment has slashes only at its start and around its `d`,
      and no `?` or `&`. */
  lemma SegmentChars(seg: string)
    requires seg == DocumentSegment || seg == SpreadsheetsSegment || seg == PresentationSegment
    ensures forall i :: 0 <= i < |seg| && seg[i] == '/' ==> i == 0 || i == |seg| - 3 || i == |seg| - 1
    ensures forall i :: 0 <= i < |seg| ==> seg[i] != '?' && seg[i] != '&'
  {
  }

  /** An `?id=` link whose text before the parameter holds no `/file/d/`,
      and with no `/` after it, gives back the `&`-free id. */
  lemma IdQueryRoundTrip(prefix: string, id: string, tail: string)
    requires !Contains(prefix, FileSegment)
    requires '?' !in prefix && '&' !in prefix
    requires |id| > 0 && '&' !in id && '/' !in id
    requires '/' !in tail
    requires tail == "" || tail[0] == '&'
    ensures ExtractFileId(prefix + "?" + IdParam + id + tail) == Some(id)
  {
    var url := prefix + "?" + IdParam + id + tail;
    IdQueryNoFilePath(prefix, id, tail);
    IdQueryFound(prefix, id, tail);
    assert Search(FilePath, url).None?;
  }

  /** The text before `?id=` holds no `/file/d/`, and no `/` follows. */
  lemma IdQueryNoFilePath(prefix: string, id: string, tail: string)
    requires !Contains(prefix, FileSegment)
    requires '/' !in id && '/' !in tail
    ensures forall k :: !MatchAt(FilePath, prefix + "?" + IdParam + id + tail, k)
  {
    var url := prefix + "?" + IdParam + id + tail;
    var p := |prefix|;
    var n := p + 1 + |IdParam|;
    forall j | p <= j < |url|
      ensures url[j] != '/'
    {
      if j < n {
        assert url[j] == ("?" + IdParam)[j - p];
      } else if j < n + |id| {
        assert url[j] == id[j - n];
      } else {
        assert url[j] == tail[j - n - |id|];
      }
    }
    forall k
      ensures !MatchAt(FilePath, url, k)
    {
      if 0 <= k && k + |FileSegment| <= |url| && url[k..k + |FileSegment|] == FileSegment {
        assert url[k + 7] == url[k..k + |FileSegment|][7];
        assert k + |FileSegment| <= p;
        assert prefix[k..k + |FileSegment|] == url[k..k + |FileSegment|];
        assert OccursAt(prefix, FileSegment, k);
      }
    }
  }

  /** The leftmost `id=` preceded by `?` is the one written, and its group
      is the id. */
  lemma IdQueryFound(prefix: string, id: string, tail: string)
    requires '?' !in prefix && '&' !in prefix
    requires |id| > 0 && '&' !in id
    requires tail == "" || tail[0] == '&'
    ensures var url := prefix + "?" + IdParam + id + tail;
      Search(IdQuery, url) == Some(|prefix|) && Group(IdQuery, url, |prefix|) == id
  {
    var url := prefix + "?" + IdParam + id + tail;
    var p := |prefix|;
    var n := p + 1 + |IdParam|;
    assert url[p + 1..n] == IdParam;
    assert MatchAt(IdQuery, url, p);
    forall k | 0 <= k < p
      ensures !MatchAt(IdQuery, url, k)
    {
      assert url[k] == prefix[k];
    }
    assert Search(IdQuery, url) == Some(p);
    assert forall k :: n <= k < n + |id| ==> url[k] == id[k - n];
    RunEndAt(url, n, n + |id|, '&');
    assert url[n..n + |id|] == id;
  }

  /** `download_file` once it holds a client. `metadata` is what
      `get_file_metadata` returns: `None` when both lookups fail, else the
      file's optional `mimeType`. The result is the temporary file's path. */
  function DownloadFile(link: string, service: bool, metadata: Option<Option<string>>,
                        transferOk: bool, guess: Mime.Guesser, tempStem: string): (r: Option<string>)
    ensures r.Some? <==> ExtractFileId(link).Some? && service && metadata.Some? && transferOk
    ensures r.Some? ==>
      var mime := metadata.value.GetOr(Mime.OctetStream);
      r.value == tempStem + Mime.DownloadPlan(mime, guess).ext
  {
    if ExtractFileId(link).None? || !service then None
    else match metadata
      case None => None
      case Some(mime) =>
        var plan := Mime.DownloadPlan(mime.GetOr(Mime.OctetStream), guess);
        if transferOk then Some(tempStem + plan.ext) else None
  }

  /** The temporary file `download_file` leaves behind without returning
      it: the file is created with `delete=False` before the transfer, so
      when the transfer raises the call returns `None` and nothing removes
      the file. */
  function DownloadStray(link: string, service: bool, metadata: Option<Option<string>>,
                         transferOk: bool, guess: Mime.Guesser, tempStem: string): (s: Option<string>)
    ensures s.Some? <==> ExtractFileId(link).Some? && service && metadata.Some? && !transferOk
    ensures s.Some? ==> s == DownloadFile(link, service, metadata, true, guess, tempStem)
  {
    if ExtractFileId(link).Some? && service && metadata.Some? && !transferOk then
      Some(tempStem + Mime.DownloadPlan(metadata.value.GetOr(Mime.OctetStream), guess).ext)
    else None
  }

  /** A temporary file is created exactly when the id, the client and the
      metadata are all there; it is then either returned or left behind,
      never both. */
  lemma DownloadCreates(link: string, service: bool, metadata: Option<Option<string>>,
                        transferOk: bool, guess: Mime.Guesser, tempStem: string)
    ensures var r := DownloadFile(link, service, metadata, transferOk, guess, tempStem);
      var s := DownloadStray(link, service, metadata, transferOk, guess, tempStem);
      && ((r.Some? || s.Some?) <==> ExtractFileId(link).Some? && service && metadata.Some?)
      && !(r.Some? && s.Some?)
  {
  }

  // ---------------------------------------------------------------------
  // get_drive_service

  /** What the name `_authenticate_drive_api` resolves to when
      `get_drive_service` calls it: nothing at all (the call raises
      `NameError`), or a helper that returns a client or raises. */
  datatype Authenticator = Unbound | Bound(succeeds: bool)

  /** This module neither defines nor imports `_authenticate_drive_api`;
      the helper of that name lives in the document processor. */
  const ModuleAuthenticator := Unbound

  /** `get_drive_service` with the module's cache: whether a client comes
      back, and whether one is cached afterwards. A cached client is
      returned as is; otherwise the helper is called, and any exception it
      raises is logged and turned into `None` with the cache left unset. */
  function GetDriveService(cached: bool, auth: Authenticator): (r: (bool, bool))
    ensures r.0 == r.1
    ensures cached ==> r.0
    ensures !cached ==> (r.0 <==> auth == Bound(true))
  {
    if cached then (true, true)
    else match auth
      case Unbound => (false, false)
      case Bound(ok) => (ok, ok)
  }

  /** `download_file` including the client lookup: the result, and
      whether a client is cached afterwards. The id is checked before the
      client is asked for. */
  function DownloadWith(link: string, cached: bool, auth: Authenticator, metadata: Option<Option<string>>,
                        transferOk: bool, guess: Mime.Guesser, tempStem: string): (r: (Option<string>, bool))
    ensures r.0.Some? <==>
      ExtractFileId(link).Some? && (cached || auth == Bound(true)) && metadata.Some? && transferOk
    ensures r.1 <==> cached || (ExtractFileId(link).Some? && auth == Bound(true))
  {
    if ExtractFileId(link).None? then (None, cached)
    else
      var (service, after) := GetDriveService(cached, auth);
      (DownloadFile(link, service, metadata, transferOk, guess, tempStem), after)
  }

  /** As written: from a fresh process no call ever downloads anything,
      whatever the link, metadata and transfer, and the cache stays unset,
      so the next call starts from the same state. */
  lemma DownloadNeverAsWritten(link: string, metadata: Option<Option<string>>,
                               transferOk: bool, guess: Mime.Guesser, tempStem: string)
    ensures DownloadWith(link, false, ModuleAuthenticator, metadata, transferOk, guess, tempStem) == (None, false)
  {
  }

  /** With the helper bound, a working helper makes a recognised link
      download, and once a client is cached the helper is never consulted
      again. */
  lemma DownloadBound(link: string, auth: Authenticator, metadata: Option<Option<string>>,
                      guess: Mime.Guesser, tempStem: string)
    requires ExtractFileId(link).Some? && metadata.Some?
    ensures DownloadWith(link, false, Bound(true), metadata, true, guess, tempStem) ==
      (Some(tempStem + Mime.DownloadPlan(metadata.value.GetOr(Mime.OctetStream), guess).ext), true)
    ensures DownloadWith(link, true, auth, metadata, true, guess, tempStem) ==
      DownloadWith(link, false, Bound(true), metadata, true, guess, tempStem)
  {
  }
}
