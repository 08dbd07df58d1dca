/** How a downloaded file's temporary-file suffix is chosen. The three
    native Google Workspace types are exported to their Office Open XML
    equivalents; every other type is fetched as is, with the extension
    `mimetypes.guess_extension` proposes, or `.bin` when it proposes nothing.
    The same table appears in the document processor, in the Drive storage
    helper and in the legacy module. */
module Mime {
  import opened Wrappers

  const GoogleDoc := "application/vnd.google-apps.document"
  const GoogleSheet := "application/vnd.google-apps.spreadsheet"
  const GoogleSlides := "application/vnd.google-apps.presentation"

  const DocxMime := "application/vnd.openxmlformats-officedocument.wordprocessingml.document"
  const XlsxMime := "application/vnd.openxmlformats-officedocument.spreadsheetml.sheet"
  const PptxMime := "application/vnd.openxmlformats-officedocument.presentationml.presentation"

  /** The MIME type assumed when none is reported. */
  const OctetStream := "application/octet-stream"

  /** `mimetypes.guess_extension`, which is outside the model: any function
      from a MIME type to an optional extension. */
  type Guesser = string -> Option<string>

  /** `guess_extension(t) or '.bin'`: `None` and `""` are both falsy. */
  function GuessOrBin(guess: Guesser, mime: string): (ext: string)
    ensures ext != ""
    ensures guess(mime).Some? && guess(mime).value != "" ==> ext == guess(mime).value
    ensures guess(mime).None? || guess(mime).value == "" ==> ext == ".bin"
  {
    match guess(mime)
    case Some(e) => if e != "" then e else ".bin"
    case None => ".bin"
  }

  /** The Workspace export table. */
  function WorkspaceExport(mime: string): Option<(string, string)> {
    if mime == GoogleDoc then Some((DocxMime, ".docx"))
    else if mime == GoogleSheet then Some((XlsxMime, ".xlsx"))
    else if mime == GoogleSlides then Some((PptxMime, ".pptx"))
    else None
  }

  datatype Plan =
    | Export(exportMime: string, ext: string)   // files().export_media
    | Media(ext: string)                        // files().get_media

  function DownloadPlan(mime: string, guess: Guesser): (p: Plan)
    ensures p.Export? <==> mime in {GoogleDoc, GoogleSheet, GoogleSlides}
    ensures mime == GoogleDoc ==> p == Export(DocxMime, ".docx")
    ensures mime == GoogleSheet ==> p == Export(XlsxMime, ".xlsx")
    ensures mime == GoogleSlides ==> p == Export(PptxMime, ".pptx")
    ensures p.Media? ==> p.ext == GuessOrBin(guess, mime)
    ensures p.ext != ""
  {
    match WorkspaceExport(mime)
    case Some((m, e)) => Export(m, e)
    case None => Media(GuessOrBin(guess, mime))
  }
}
