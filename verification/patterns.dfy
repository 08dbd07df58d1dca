/** The regular expressions of the two Drive file-id extractors, each
    written by hand as a predicate "a match starts at position k" plus the
    captured group. `re.search` is the leftmost start at which the pattern
    matches; every group here is `[^c]+`, which is greedy, so the group is
    the maximal run of characters other than `c`. */
module Patterns {
  import opened Wrappers
  import opened Strs

  // `_extract_file_id` in the document processor
  const FilePrefix := "https://drive.google.com/file/d/"
  const OpenPrefix := "https://drive.google.com/open?id="
  const DocsPrefix := "https://docs.google.com/"
  const DocsMarker := "/d/"

  // `extract_file_id` in the Drive storage helper
  const FileSegment := "/file/d/"
  const IdParam := "id="
  const DocumentSegment := "/document/d/"
  const SpreadsheetsSegment := "/spreadsheets/d/"
  const PresentationSegment := "/presentation/d/"

  /** Python's `\w`, restricted to ASCII. */
  predicate IsWordChar(c: char) {
    IsAsciiAlnum(c) || c == '_'
  }

  /** End of the maximal run of word characters starting at `i`. */
  function WordRunEnd(s: string, i: nat): (e: nat)
    requires i <= |s|
    ensures i <= e <= |s|
    ensures forall k :: i <= k < e ==> IsWordChar(s[k])
    ensures e == |s| || !IsWordChar(s[e])
    decreases |s| - i
  {
    if i == |s| || !IsWordChar(s[i]) then i else WordRunEnd(s, i + 1)
  }

  /** The literal `lit` followed by at least one character other than
      `stop` starts at `k`: a match of `lit([^stop]+)`. */
  predicate LiteralRunAt(url: string, lit: string, stop: char, k: int) {
    OccursAt(url, lit, k) && k + |lit| < |url| && url[k + |lit|] != stop
  }

  /** A match of `https://docs\.google\.com/\w+/d/([^/]+)` starts at `k`.
      The greedy `\w+` can only be followed by `/` at the end of its maximal
      run, so no other split of the match exists. */
  predicate DocsAt(url: string, k: int) {
    OccursAt(url, DocsPrefix, k)
    && var w := k + |DocsPrefix|;
    var e := WordRunEnd(url, w);
    e > w && OccursAt(url, DocsMarker, e) && e + |DocsMarker| < |url| && url[e + |DocsMarker|] != '/'
  }

  /** Where the captured id of a Docs match starts. */
  function DocsIdStart(url: string, k: nat): (j: nat)
    requires DocsAt(url, k)
    ensures j < |url| && url[j] != '/'
  {
    WordRunEnd(url, k + |DocsPrefix|) + |DocsMarker|
  }

  /** The segment of `/(document|spreadsheets|presentation)/d/([^/]+)`
      that matches at `k`. The three alternatives differ in their second
      character, so at most one of them can. */
  function SegmentAt(url: string, k: int): (seg: Option<string>)
    ensures seg.Some? ==> seg.value in [DocumentSegment, SpreadsheetsSegment, PresentationSegment]
    ensures seg.Some? ==> LiteralRunAt(url, seg.value, '/', k)
    ensures seg.None? ==> (!LiteralRunAt(url, DocumentSegment, '/', k)
      && !LiteralRunAt(url, SpreadsheetsSegment, '/', k) && !LiteralRunAt(url, PresentationSegment, '/', k))
  {
    if LiteralRunAt(url, DocumentSegment, '/', k) then Some(DocumentSegment)
    else if LiteralRunAt(url, SpreadsheetsSegment, '/', k) then Some(SpreadsheetsSegment)
    else if LiteralRunAt(url, PresentationSegment, '/', k) then Some(PresentationSegment)
    else None
  }

  /** The segments differ in their second character, so the segment
      written at `k` is the one `SegmentAt` reports. */
  lemma SegmentAtWritten(url: string, k: int, seg: string)
    requires seg == DocumentSegment || seg == SpreadsheetsSegment || seg == PresentationSegment
    requires LiteralRunAt(url, seg, '/', k)
    ensures SegmentAt(url, k) == Some(seg)
  {
    var found := SegmentAt(url, k).value;
    assert url[k + 1] == url[k..k + |seg|][1] == seg[1];
    assert url[k + 1] == url[k..k + |found|][1] == found[1];
  }

  /** The captured group `[^stop]+` starting at `j`. */
  function RunFrom(url: string, j: nat, stop: char): (id: string)
    requires j < |url| && url[j] != stop
    ensures |id| > 0 && stop !in id
  {
    url[j..RunEnd(url, j, stop)]
  }

  datatype Pattern =
    // the document processor, in the order tried
    | FileLink    // https://drive\.google\.com/file/d/([^/]+)
    | OpenLink    // https://drive\.google\.com/open\?id=([^&]+)
    | DocsLink    // https://docs\.google\.com/\w+/d/([^/]+)
    // the Drive storage helper, in the order tried
    | FilePath    // /file/d/([^/]+)
    | IdQuery     // [?&]id=([^&]+)
    | DocPath     // /(document|spreadsheets|presentation)/d/([^/]+)

  /** The character that ends the captured group. */
  function Stop(pat: Pattern): char {
    if pat == OpenLink || pat == IdQuery then '&' else '/'
  }

  predicate MatchAt(pat: Pattern, url: string, k: int) {
    match pat
    case FileLink => LiteralRunAt(url, FilePrefix, '/', k)
    case OpenLink => LiteralRunAt(url, OpenPrefix, '&', k)
    case DocsLink => DocsAt(url, k)
    case FilePath => LiteralRunAt(url, FileSegment, '/', k)
    case IdQuery => 0 <= k < |url| && (url[k] == '?' || url[k] == '&') && LiteralRunAt(url, IdParam, '&', k + 1)
    case DocPath => SegmentAt(url, k).Some?
  }

  /** No match starts outside the string. */
  lemma MatchInside(pat: Pattern, url: string, k: int)
    ensures MatchAt(pat, url, k) ==> 0 <= k < |url|
  {
  }

  /** `re.search` from position `from`: the leftmost start at which `pat`
      matches. */
  function SearchFrom(pat: Pattern, url: string, from: nat): (r: Option<nat>)
    ensures r.Some? ==> from <= r.value && MatchAt(pat, url, r.value)
    ensures r.Some? ==> forall k :: from <= k < r.value ==> !MatchAt(pat, url, k)
    ensures r.None? ==> forall k :: from <= k ==> !MatchAt(pat, url, k)
    decreases |url| - from
  {
    if from >= |url| then
      assert forall k :: from <= k ==> !MatchAt(pat, url, k) by {
        forall k | from <= k
          ensures !MatchAt(pat, url, k)
        {
          MatchInside(pat, url, k);
        }
      }
      None
    else if MatchAt(pat, url, from) then Some(from)
    else SearchFrom(pat, url, from + 1)
  }

  function Search(pat: Pattern, url: string): (r: Option<nat>)
    ensures r.Some? ==> MatchAt(pat, url, r.value)
    ensures r.Some? ==> forall k :: 0 <= k < r.value ==> !MatchAt(pat, url, k)
    ensures r.None? <==> forall k :: !MatchAt(pat, url, k)
  {
    assert forall k :: k < 0 ==> !MatchAt(pat, url, k) by {
      forall k | k < 0
        ensures !MatchAt(pat, url, k)
      {
        MatchInside(pat, url, k);
      }
    }
    SearchFrom(pat, url, 0)
  }

  /** A match at `i` with none before it is what `re.search` finds. */
  lemma SearchFinds(pat: Pattern, url: string, i: nat)
    requires MatchAt(pat, url, i)
    requires forall k :: 0 <= k < i ==> !MatchAt(pat, url, k)
    ensures Search(pat, url) == Some(i)
  {
    assert Search(pat, url).Some?;
  }

  /** The captured group of a match of `pat` at `k`: non-empty and free of
      the pattern's stop character. */
  function Group(pat: Pattern, url: string, k: nat): (id: string)
    requires MatchAt(pat, url, k)
    ensures |id| > 0 && Stop(pat) !in id
  {
    match pat
    case FileLink => RunFrom(url, k + |FilePrefix|, '/')
    case OpenLink => RunFrom(url, k + |OpenPrefix|, '&')
    case DocsLink => RunFrom(url, DocsIdStart(url, k), '/')
    case FilePath => RunFrom(url, k + |FileSegment|, '/')
    case IdQuery => RunFrom(url, k + 1 + |IdParam|, '&')
    case DocPath => RunFrom(url, k + |SegmentAt(url, k).value|, '/')
  }

  /** The first of `pats` that matches anywhere, with its leftmost match's
      group: how a list of `re.search` calls tried in order behaves. */
  function FirstGroup(pats: seq<Pattern>, url: string): (r: Option<string>)
    ensures r.None? <==> forall i, k :: 0 <= i < |pats| ==> !MatchAt(pats[i], url, k)
    ensures r.Some? ==> |r.value| > 0
    ensures |pats| > 0 && Search(pats[0], url).Some? ==> r == Some(Group(pats[0], url, Search(pats[0], url).value))
    ensures |pats| > 0 && Search(pats[0], url).None? ==> r == FirstGroup(pats[1..], url)
    decreases |pats|
  {
    if |pats| == 0 then None
    else match Search(pats[0], url)
      case Some(k) => Some(Group(pats[0], url, k))
      case None =>
        NoMatchShift(pats, url);
        FirstGroup(pats[1..], url)
  }

  /** When the first pattern matches nowhere, no pattern of the list
      matches exactly when no pattern of the rest does. */
  lemma NoMatchShift(pats: seq<Pattern>, url: string)
    requires |pats| > 0 && forall k :: !MatchAt(pats[0], url, k)
    ensures (forall i, k :: 0 <= i < |pats| ==> !MatchAt(pats[i], url, k))
        <==> (forall i, k :: 0 <= i < |pats[1..]| ==> !MatchAt(pats[1..][i], url, k))
  {
    if forall i, k :: 0 <= i < |pats[1..]| ==> !MatchAt(pats[1..][i], url, k) {
      forall i, k | 0 <= i < |pats|
        ensures !MatchAt(pats[i], url, k)
      {
        if i > 0 {
          assert pats[i] == pats[1..][i - 1];
        }
      }
    }
  }
}
