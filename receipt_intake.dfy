/**
 * The receipt upload modal: choosing a file, sending it to the OCR endpoint,
 * showing the recognised text or the error, and filing an expense for the
 * amount found on the receipt.
 *
 * The browser services the modal relies on become values here: the preview
 * URL that `URL.createObjectURL` hands out is a numbered token, the outcome
 * of `fetch` is a parameter, and `addTransaction` is recorded in a log of
 * calls together with whatever it settled with.
 */
module ReceiptIntake {
  import opened Common
  import opened AmountExtractor

  // ---------------------------------------------------------------------------
  // Files and the type filter
  // ---------------------------------------------------------------------------

  /** A file picked in the browser: what the modal reads of it. */
  datatype File = File(name: string, mimeType: string, size: nat)

  /** The four MIME types of the allow-list. */
  const AllowedTypes: seq<string> := ["application/pdf", "image/jpeg", "image/png", "image/jpg"]

  const PdfType: string := "application/pdf"

  /** What the type filter makes of a file. */
  datatype FileCheck = Accepted | NotAllowed | PdfUnsupported

  /** The two checks of the file picker, in their order. */
  function CheckFileType(mimeType: string): (c: FileCheck)
    ensures c == Accepted <==> mimeType in ["image/jpeg", "image/png", "image/jpg"]
    ensures c == PdfUnsupported <==> mimeType == PdfType
    ensures c == NotAllowed <==> mimeType !in AllowedTypes
  {
    if mimeType !in AllowedTypes then NotAllowed
    else if mimeType == PdfType then PdfUnsupported
    else Accepted
  }

  /** The alert shown for a rejected file, none for an accepted one. */
  function RejectionAlert(c: FileCheck): (a: Option<string>)
    ensures a == None <==> c == Accepted
  {
    match c
    case Accepted => None
    case NotAllowed => Some("Please select a PDF, JPG, or PNG file")
    case PdfUnsupported => Some("OCR currently supports images (JPG/PNG). Please upload an image.")
  }

  /** Every accepted type is an image type, so an accepted file always gets a preview. */
  lemma AcceptedIsImage(mimeType: string)
    requires CheckFileType(mimeType) == Accepted
    ensures StartsWith(mimeType, "image/")
  {
    assert mimeType == "image/jpeg" || mimeType == "image/png" || mimeType == "image/jpg";
  }

  /** `formatFileSize` for an empty file; other sizes are not modelled. */
  function FormatFileSize(bytes: nat): (r: Option<string>)
    ensures r.Some? <==> bytes == 0
    ensures r.Some? ==> r.value == "0 Bytes"
  {
    if bytes == 0 then Some("0 Bytes") else None
  }

  // ---------------------------------------------------------------------------
  // The OCR endpoint and what the modal makes of its reply
  // ---------------------------------------------------------------------------

  /**
   * A response body as `response.json()` sees it: not JSON at all, or an
   * object with optional string fields `text` and `error`.
   */
  datatype Body = Unparsable(reason: string) | Json(text: Option<string>, error: Option<string>)

  /** How the request settles: `fetch` rejects, or a response arrives. */
  datatype FetchOutcome = NetworkFailure(message: string) | Reply(status: int, body: Body)

  /**
   * The reply of the `/ocr-upload` route: the recognised text, or status 500
   * with the error "OCR failed" when the request carried no file or the OCR
   * engine threw (`recognized == None`).
   */
  function OcrReply(hasFile: bool, recognized: Option<string>): (r: FetchOutcome)
    ensures r.Reply? && r.body.Json?
    ensures r.status == 200 <==> hasFile && recognized.Some?
    ensures r.status == 200 ==> r.body == Json(recognized, None)
    ensures r.status != 200 ==> r.status == 500 && r.body == Json(None, Some("OCR failed"))
  {
    if hasFile && recognized.Some? then Reply(200, Json(Some(recognized.value), None))
    else Reply(500, Json(None, Some("OCR failed")))
  }

  /** `response.ok` */
  predicate IsOk(status: int)
  {
    200 <= status <= 299
  }

  /** What the upload comes to: recognised text, or the message that ends up in `errorMessage`. */
  datatype UploadResult = Recognized(text: string) | Failed(message: string)

  /** `s || fallback` for a string. */
  function OrElse(s: string, fallback: string): (r: string)
    ensures r == s || r == fallback
    ensures r == "" <==> s == "" && fallback == ""
    ensures s != "" ==> r == s
  {
    if s == "" then fallback else s
  }

  /**
   * The try block of `handleUpload` up to the recognised text: a non-OK reply
   * throws its `error` field or "Upload failed", a rejected fetch or a body
   * that is not JSON throws its own message, and the catch falls back to
   * "Something went wrong" for an empty message.
   */
  function ResultOf(outcome: FetchOutcome): (r: UploadResult)
    ensures r.Failed? ==> r.message != ""
    ensures r.Recognized? <==> outcome.Reply? && IsOk(outcome.status) && outcome.body.Json?
    ensures outcome.Reply? && !IsOk(outcome.status) ==>
      r == Failed(if outcome.body.Json? && outcome.body.error.Some? && outcome.body.error.value != ""
                  then outcome.body.error.value else "Upload failed")
    ensures outcome.NetworkFailure? ==> r == Failed(OrElse(outcome.message, "Something went wrong"))
    ensures outcome.Reply? && IsOk(outcome.status) && outcome.body.Unparsable? ==>
      r == Failed(OrElse(outcome.body.reason, "Something went wrong"))
    ensures r.Recognized? && outcome.body.text.Some? ==> r.text == outcome.body.text.value
    ensures r.Recognized? && outcome.body.text.None? ==> r.text == ""
  {
    match outcome
    case NetworkFailure(message) => Failed(OrElse(message, "Something went wrong"))
    case Reply(status, body) =>
      if !IsOk(status) then
        var error := if body.Json? && body.error.Some? then body.error.value else "";
        Failed(OrElse(error, "Upload failed"))
      else
        match body
        case Unparsable(reason) => Failed(OrElse(reason, "Something went wrong"))
        case Json(text, _) => Recognized(if text.Some? then text.value else "")
  }

  /** Against the endpoint above, an upload yields the recognised text or "OCR failed". */
  lemma UploadAgainstEndpoint(hasFile: bool, recognized: Option<string>)
    ensures ResultOf(OcrReply(hasFile, recognized)) ==
      if hasFile && recognized.Some? then Recognized(recognized.value) else Failed("OCR failed")
  {
  }

  // ---------------------------------------------------------------------------
  // The transaction filed for a receipt
  // ---------------------------------------------------------------------------

  /** The transaction handed to `addTransaction`; `amount` in cents. */
  datatype TransactionDraft = TransactionDraft(
    description: string,
    amount: nat,
    category: string,
    date: string,
    kind: string,
    paymentMethod: string)

  /** `name.split('.')[0]`: the name up to its first dot. */
  function FirstSegment(name: string): (r: string)
    ensures |r| <= |name| && r == name[..|r|]
    ensures '.' !in r
    ensures |r| < |name| ==> name[|r|] == '.'
  {
    if name == [] || name[0] == '.' then []
    else [name[0]] + FirstSegment(name[1..])
  }

  /** A name without a dot is its own first segment. */
  lemma {:induction false} FirstSegmentWithoutDot(name: string)
    requires '.' !in name
    ensures FirstSegment(name) == name
  {
  }

  /** Only the part before the first dot matters. */
  lemma {:induction false} FirstSegmentOfExtension(base: string, ext: string)
    requires '.' !in base
    ensures FirstSegment(base + "." + ext) == base
  {
    var name := base + "." + ext;
    if base != [] {
      assert name[0] == base[0] && base[0] in base;
      assert name[1..] == base[1..] + "." + ext;
      FirstSegmentOfExtension(base[1..], ext);
    }
  }

  /** The description of a receipt's transaction. */
  function Description(fileName: string): (d: string)
    ensures d != []
    ensures FirstSegment(fileName) != [] ==> d == FirstSegment(fileName)
    ensures FirstSegment(fileName) == [] ==> d == "Receipt OCR"
  {
    OrElse(FirstSegment(fileName), "Receipt OCR")
  }

  /** The draft filed for a recognised text, if an amount was found in it. */
  function DraftFor(file: File, text: string, now: string): (r: Option<TransactionDraft>)
    ensures r.Some? <==> ParseAmount(text).Some?
    ensures r.Some? ==> r.value.amount == ParseAmount(text).value && r.value.amount > 0
    ensures r.Some? ==> r.value.description == Description(file.name) && r.value.date == now
    ensures r.Some? ==> r.value.category == "Other" && r.value.kind == "expense" && r.value.paymentMethod == "Cash"
  {
    match ParseAmount(text)
    case None => None
    case Some(cents) => Some(TransactionDraft(Description(file.name), cents, "Other", now, "expense", "Cash"))
  }

  /** The calls of `addTransaction` made for a recognised text: one draft or none. */
  function Filed(file: File, text: string, now: string): (r: seq<TransactionDraft>)
    ensures |r| <= 1
    ensures r != [] <==> ParseAmount(text).Some?
    ensures r != [] ==> DraftFor(file, text, now) == Some(r[0])
  {
    match DraftFor(file, text, now)
    case Some(d) => [d]
    case None => []
  }

  /** A recognised text whose money figures all parse to zero (or that has none) files nothing. */
  lemma NoFigureNoDraft(file: File, text: string, now: string)
    requires forall m :: m in MoneyMatches(Normalize(text)) ==> TokenCents(m) == 0
    ensures DraftFor(file, text, now) == None
  {
    ZeroMatchesGiveNoAmount(text);
  }

  // ---------------------------------------------------------------------------
  // The modal's state
  // ---------------------------------------------------------------------------

  /** A preview URL handed out by `URL.createObjectURL`. */
  datatype Url = Url(id: nat)

  /** How a call of `addTransaction` settled; the modal ignores a rejection. */
  datatype AddOutcome = Added | Rejected(message: string)

  class Intake {
    var selectedFile: Option<File>
    var previewUrl: Option<Url>
    var isUploading: bool
    var ocrText: string
    var errorMessage: string
    /** The file the in-flight upload was started with. */
    var pending: Option<File>
    /** Number of preview URLs handed out so far. */
    var nextUrl: nat
    /** Preview URLs given back with `URL.revokeObjectURL`, in order. */
    var revoked: seq<Url>
    /** Files sent to the OCR endpoint, in order. */
    var requests: seq<File>
    /** Drafts passed to `addTransaction`, in order. */
    var calls: seq<TransactionDraft>

    /** Every URL seen was handed out, and an upload in flight is exactly a pending file with cleared messages. */
    predicate Valid()
      reads this
    {
      (previewUrl.Some? ==> previewUrl.value.id < nextUrl)
      && (forall u :: u in revoked ==> u.id < nextUrl)
      && (isUploading <==> pending.Some?)
      && (isUploading ==> ocrText == "" && errorMessage == "")
    }

    /** The submit button is enabled. */
    predicate SubmitEnabled()
      reads this
    {
      selectedFile.Some? && !isUploading
    }

    /** The modal as it first renders. */
    constructor ()
      ensures Valid()
      ensures selectedFile == None && previewUrl == None && !isUploading
      ensures ocrText == "" && errorMessage == "" && pending == None
      ensures nextUrl == 0 && revoked == [] && requests == [] && calls == []
      ensures !SubmitEnabled()
    {
      selectedFile := None;
      previewUrl := None;
      isUploading := false;
      ocrText := "";
      errorMessage := "";
      pending := None;
      nextUrl := 0;
      revoked := [];
      requests := [];
      calls := [];
    }

    /**
     * `handleFileSelect`: a rejected file changes nothing but raises an
     * alert; an accepted one becomes the selection with a fresh preview URL,
     * and the preview it replaces is not revoked.
     */
    method HandleFileSelect(file: Option<File>) returns (alert: Option<string>)
      requires Valid()
      modifies this
      ensures Valid()
      ensures file.None? ==> alert == None
      ensures file.Some? ==> alert == RejectionAlert(CheckFileType(file.value.mimeType))
      ensures file.None? || alert.Some? ==> unchanged(this)
      ensures file.Some? && alert.None? ==>
        && selectedFile == file
        && previewUrl == Some(Url(old(nextUrl)))
        && (forall u :: u in old(revoked) || old(previewUrl) == Some(u) ==> u != previewUrl.value)
        && nextUrl == old(nextUrl) + 1
        && revoked == old(revoked)
        && isUploading == old(isUploading) && pending == old(pending)
        && ocrText == old(ocrText) && errorMessage == old(errorMessage)
        && requests == old(requests) && calls == old(calls)
      ensures file.Some? && alert.None? ==> (SubmitEnabled() <==> !isUploading)
    {
      alert := None;
      if file.Some? {
        var f := file.value;
        var check := CheckFileType(f.mimeType);
        if check == NotAllowed {
          alert := RejectionAlert(check);
          return;
        }
        if check == PdfUnsupported {
          alert := RejectionAlert(check);
          return;
        }
        selectedFile := file;
        AcceptedIsImage(f.mimeType);
        if StartsWith(f.mimeType, "image/") {
          previewUrl := Some(Url(nextUrl));
          nextUrl := nextUrl + 1;
        } else {
          // `handleFileSelect` clears the preview here; no accepted type gets this far.
          assert false;
        }
      }
    }

    /**
     * `handleUpload` up to the request: both messages are cleared; without a
     * file nothing else happens, otherwise the upload starts and the file is
     * sent. The submit button is disabled while an upload is in flight.
     */
    method HandleUpload() returns (alert: Option<string>)
      requires Valid() && !isUploading
      modifies this
      ensures Valid()
      ensures ocrText == "" && errorMessage == ""
      ensures old(selectedFile).None? ==>
        && alert == Some("Please select a file first")
        && !isUploading && pending == None && requests == old(requests)
      ensures old(selectedFile).Some? ==>
        && alert == None
        && isUploading && pending == old(selectedFile)
        && requests == old(requests) + [old(selectedFile).value]
      ensures !SubmitEnabled()
      ensures selectedFile == old(selectedFile) && previewUrl == old(previewUrl)
      ensures nextUrl == old(nextUrl) && revoked == old(revoked) && calls == old(calls)
    {
      errorMessage := "";
      ocrText := "";
      if selectedFile.None? {
        alert := Some("Please select a file first");
        return;
      }
      alert := None;
      isUploading := true;
      pending := selectedFile;
      requests := requests + [selectedFile.value];
    }

    /**
     * The rest of `handleUpload`, once the request has settled: on failure
     * the message is shown; on success the text is shown and, when it holds
     * an amount, an expense is filed and awaited, whatever `addTransaction`
     * settles with. The upload is over either way.
     */
    method SettleUpload(outcome: FetchOutcome, added: AddOutcome, now: string)
      requires Valid() && isUploading
      modifies this
      ensures Valid()
      ensures !isUploading && pending == None
      ensures SubmitEnabled() <==> selectedFile.Some?
      ensures ResultOf(outcome).Failed? ==>
        && errorMessage == ResultOf(outcome).message
        && ocrText == ""
        && calls == old(calls)
      ensures ResultOf(outcome).Recognized? ==>
        && ocrText == ResultOf(outcome).text
        && errorMessage == ""
        && calls == old(calls) + Filed(old(pending).value, ocrText, now)
      ensures selectedFile == old(selectedFile) && previewUrl == old(previewUrl)
      ensures nextUrl == old(nextUrl) && revoked == old(revoked) && requests == old(requests)
    {
      var file := pending.value;
      var result := ResultOf(outcome);
      if result.Failed? {
        errorMessage := result.message;
      } else {
        ocrText := result.text;
        // `added` is awaited and then ignored: a rejection is swallowed.
        calls := calls + Filed(file, result.text, now);
      }
      isUploading := false;
      pending := None;
    }

    /** `removeFile`: no selection and no preview, the old preview URL revoked. */
    method RemoveFile()
      requires Valid()
      modifies this
      ensures Valid()
      ensures selectedFile == None && previewUrl == None
      ensures revoked == old(revoked) + (if old(previewUrl).Some? then [old(previewUrl).value] else [])
      ensures !SubmitEnabled()
      ensures isUploading == old(isUploading) && pending == old(pending)
      ensures ocrText == old(ocrText) && errorMessage == old(errorMessage)
      ensures nextUrl == old(nextUrl) && requests == old(requests) && calls == old(calls)
    {
      selectedFile := None;
      if previewUrl.Some? {
        revoked := revoked + [previewUrl.value];
        previewUrl := None;
      }
    }
  }

  /**
   * One receipt from picking it to the filed expense, against the endpoint:
   * the recognised text is shown and its amount filed, or the endpoint's
   * "OCR failed" is shown and nothing is filed.
   */
  method UploadReceipt(file: File, recognized: Option<string>, added: AddOutcome, now: string)
    returns (ocrText: string, errorMessage: string, filed: seq<TransactionDraft>)
    requires CheckFileType(file.mimeType) == Accepted
    ensures recognized.None? ==> ocrText == "" && errorMessage == "OCR failed" && filed == []
    ensures recognized.Some? ==>
      ocrText == recognized.value && errorMessage == "" && filed == Filed(file, recognized.value, now)
  {
    var modal := new Intake();
    var selectAlert := modal.HandleFileSelect(Some(file));
    var uploadAlert := modal.HandleUpload();
    UploadAgainstEndpoint(true, recognized);
    modal.SettleUpload(OcrReply(true, recognized), added, now);
    ocrText, errorMessage, filed := modal.ocrText, modal.errorMessage, modal.calls;
  }
}
