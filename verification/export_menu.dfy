/** The export flow of the editor (src/components/ExportMenu.tsx): an
    unsaved-changes guard in front of an export that runs
    idle -> preparing -> generating -> complete | error, then a download
    through the native save dialog, and a close that resets everything. The
    export request and the dialog are parameters: the server's answer is an
    `ExportResponse` and the dialog's answer an optional path. */
module Export {
  import opened Wrappers
  import JsText

  datatype Format = Svg | Png | Pdf

  datatype Status = Idle | Preparing | Generating | Complete | Error

  /** The JSON error body of a failed export, `{error, details?}`. */
  datatype ErrorBody = ErrorBody(details: Option<string>, error: Option<string>)

  /** What `fetch` of the export route yields: an ok response (`url` is the
      object URL made from its blob), a non-ok response whose body is JSON or
      not (`None`), or a thrown error with its message. */
  datatype ExportResponse =
    | Succeeded(url: string)
    | Rejected(body: Option<ErrorBody>)
    | FetchFailed(message: string)

  function Extension(f: Format): string {
    match f
    case Svg => "svg"
    case Png => "png"
    case Pdf => "pdf"
  }

  /** `Failed to export as ${format.toUpperCase()}`. */
  function DefaultFailure(f: Format): (m: string)
    ensures f == Svg ==> m == "Failed to export as SVG"
    ensures f == Png ==> m == "Failed to export as PNG"
    ensures f == Pdf ==> m == "Failed to export as PDF"
  {
    "Failed to export as " + JsText.UpperAscii(Extension(f))
  }

  /** The body used when the error response is not JSON. */
  const UnparsedBody := ErrorBody(None, Some("Export failed"))

  /** The message of a failed export: from an error body, `details`, else
      `error`, else the default text (empty strings count as absent); from a
      thrown error, its message, else the default. */
  function FailureMessage(f: Format, resp: ExportResponse): (m: string)
    requires !resp.Succeeded?
    ensures m != ""
    ensures (resp.Rejected? && resp.body.Some? && JsText.Truthy(resp.body.value.details))
              ==> m == resp.body.value.details.value
    ensures (resp.Rejected? && resp.body.Some? && !JsText.Truthy(resp.body.value.details)
             && JsText.Truthy(resp.body.value.error)) ==> m == resp.body.value.error.value
    ensures (resp.Rejected? && resp.body.Some? && !JsText.Truthy(resp.body.value.details)
             && !JsText.Truthy(resp.body.value.error)) ==> m == DefaultFailure(f)
    ensures resp.Rejected? && resp.body.None? ==> m == "Export failed"
    ensures resp.FetchFailed? ==> m == (if resp.message != "" then resp.message else DefaultFailure(f))
  {
    match resp
    case Rejected(body) =>
      var b := if body.Some? then body.value else UnparsedBody;
      if JsText.Truthy(b.details) then b.details.value
      else if JsText.Truthy(b.error) then b.error.value
      else DefaultFailure(f)
    case FetchFailed(message) =>
      if message != "" then message else DefaultFailure(f)
  }

  /** A failed export's message is always one of the body's two fields, the
      unparsed-body text, the thrown message, or the default text. */
  lemma FailureMessageSources(f: Format, resp: ExportResponse)
    requires !resp.Succeeded?
    ensures var m := FailureMessage(f, resp);
            m == DefaultFailure(f) || m == "Export failed"
            || (resp.FetchFailed? && m == resp.message)
            || (resp.Rejected? && resp.body.Some?
                && (resp.body.value.details == Some(m) || resp.body.value.error == Some(m)))
  {
  }

  /** The file name the save dialog proposes: `${diagramName}.${exportFormat}`. */
  function SuggestedFileName(diagramName: string, f: Format): (r: string)
    ensures |r| == |diagramName| + 4
    ensures r[..|diagramName|] == diagramName && r[|diagramName|] == '.'
    ensures r[|diagramName| + 1..] == Extension(f)
  {
    diagramName + "." + Extension(f)
  }

  class ExportMenu {
    var isOpen: bool
    var showProgressModal: bool
    var showUnsavedWarning: bool
    var pendingFormat: Option<Format>
    var status: Status
    var exportFormat: Option<Format>
    var downloadUrl: Option<string>
    var errorMessage: Option<string>
    /** Every status the progress modal has shown, in order. */
    ghost var statusTrace: seq<Status>

    /** The outcome of an export: complete with its url, or error with its message. */
    ghost predicate Finished(f: Format, resp: ExportResponse)
      reads this
    {
      && showProgressModal && exportFormat == Some(f)
      && (resp.Succeeded? ==> status == Complete && downloadUrl == Some(resp.url) && errorMessage == None)
      && (!resp.Succeeded? ==> status == Error && downloadUrl == None
                               && errorMessage == Some(FailureMessage(f, resp)))
    }

    constructor ()
      ensures !isOpen && !showProgressModal && !showUnsavedWarning && pendingFormat == None
      ensures status == Idle && exportFormat == None && downloadUrl == None && errorMessage == None
      ensures statusTrace == [Idle]
    {
      isOpen := false;
      showProgressModal := false;
      showUnsavedWarning := false;
      pendingFormat := None;
      status := Idle;
      exportFormat := None;
      downloadUrl := None;
      errorMessage := None;
      statusTrace := [Idle];
    }

    /** The Export button opens or closes the format menu; it is disabled
        while the progress modal is shown. */
    method ToggleMenu()
      modifies this`isOpen
      ensures isOpen == (if showProgressModal then old(isOpen) else !old(isOpen))
    {
      if !showProgressModal {
        isOpen := !isOpen;
      }
    }

    /** `performExport`: shows the modal with the format, status `preparing`
        and no url or error; then `generating`; then `complete` with the
        url or `error` with the message. */
    method PerformExport(f: Format, resp: ExportResponse)
      modifies this`showProgressModal, this`exportFormat, this`status, this`downloadUrl,
               this`errorMessage, this`statusTrace
      ensures Finished(f, resp)
      ensures statusTrace == old(statusTrace) + [Preparing, Generating, status]
    {
      showProgressModal := true;
      exportFormat := Some(f);
      status := Preparing;
      downloadUrl := None;
      errorMessage := None;
      statusTrace := statusTrace + [Preparing];

      status := Generating;
      statusTrace := statusTrace + [Generating];

      match resp {
        case Succeeded(url) =>
          downloadUrl := Some(url);
          status := Complete;
        case _ =>
          status := Error;
          errorMessage := Some(FailureMessage(f, resp));
      }
      statusTrace := statusTrace + [status];
    }

    /** `handleExport`: closes the menu; with unsaved changes it starts no
        export but records the format and shows the warning. */
    method Export(f: Format, hasUnsavedChanges: bool, resp: ExportResponse)
      modifies this
      ensures !isOpen && showProgressModal == (old(showProgressModal) || !hasUnsavedChanges)
      ensures hasUnsavedChanges ==>
                pendingFormat == Some(f) && showUnsavedWarning
                && status == old(status) && exportFormat == old(exportFormat)
                && downloadUrl == old(downloadUrl) && errorMessage == old(errorMessage)
                && statusTrace == old(statusTrace)
      ensures !hasUnsavedChanges ==>
                Finished(f, resp) && statusTrace == old(statusTrace) + [Preparing, Generating, status]
                && pendingFormat == old(pendingFormat) && showUnsavedWarning == old(showUnsavedWarning)
    {
      isOpen := false;
      if hasUnsavedChanges {
        pendingFormat := Some(f);
        showUnsavedWarning := true;
        return;
      }
      PerformExport(f, resp);
    }

    /** `handleSaveAndExport`: hides the warning and saves; if the save
        fails no export runs, and in every case the pending format ends up
        cleared. */
    method SaveAndExport(saved: bool, resp: ExportResponse)
      modifies this
      ensures !showUnsavedWarning && pendingFormat == None && isOpen == old(isOpen)
      ensures saved && old(pendingFormat).Some? ==>
                Finished(old(pendingFormat).value, resp)
                && statusTrace == old(statusTrace) + [Preparing, Generating, status]
      ensures !(saved && old(pendingFormat).Some?) ==>
                status == old(status) && exportFormat == old(exportFormat)
                && downloadUrl == old(downloadUrl) && errorMessage == old(errorMessage)
                && showProgressModal == old(showProgressModal) && statusTrace == old(statusTrace)
    {
      showUnsavedWarning := false;
      if !saved {
        pendingFormat := None;
        return;
      }
      if pendingFormat.Some? {
        PerformExport(pendingFormat.value, resp);
        pendingFormat := None;
      }
    }

    /** `handleExportAnyway`: hides the warning and exports the pending
        format from the last saved version. */
    method ExportAnyway(resp: ExportResponse)
      modifies this
      ensures !showUnsavedWarning && pendingFormat == None && isOpen == old(isOpen)
      ensures old(pendingFormat).Some? ==>
                Finished(old(pendingFormat).value, resp)
                && statusTrace == old(statusTrace) + [Preparing, Generating, status]
      ensures old(pendingFormat).None? ==>
                status == old(status) && exportFormat == old(exportFormat)
                && downloadUrl == old(downloadUrl) && errorMessage == old(errorMessage)
                && showProgressModal == old(showProgressModal) && statusTrace == old(statusTrace)
    {
      showUnsavedWarning := false;
      if pendingFormat.Some? {
        PerformExport(pendingFormat.value, resp);
        pendingFormat := None;
      }
    }

    /** `handleCancelExport`: hides the warning and forgets the pending
        format; the export status is left alone. */
    method CancelExport()
      modifies this`showUnsavedWarning, this`pendingFormat
      ensures !showUnsavedWarning && pendingFormat == None
    {
      showUnsavedWarning := false;
      pendingFormat := None;
    }

    /** `handleClose`: hides the modal, status back to `idle`, and no format,
        url or error. */
    method Close()
      modifies this`showProgressModal, this`status, this`exportFormat, this`downloadUrl,
               this`errorMessage, this`statusTrace
      ensures !showProgressModal && status == Idle
      ensures exportFormat == None && downloadUrl == None && errorMessage == None
      ensures statusTrace == old(statusTrace) + [Idle]
    {
      showProgressModal := false;
      status := Idle;
      statusTrace := statusTrace + [Idle];
      exportFormat := None;
      if downloadUrl.Some? {
        downloadUrl := None;
      }
      errorMessage := None;
    }

    /** `handleDownload`: without a url or a format it does nothing. Otherwise
        it proposes `suggested` in the save dialog; a cancelled dialog
        (`chosenPath == None`) changes nothing, and a file written to the
        chosen path closes the modal. */
    method Download(diagramName: string, chosenPath: Option<string>, written: bool)
      returns (suggested: Option<string>)
      modifies this`showProgressModal, this`status, this`exportFormat, this`downloadUrl,
               this`errorMessage, this`statusTrace
      ensures old(downloadUrl).None? || old(exportFormat).None? ==> suggested == None
      ensures old(downloadUrl).Some? && old(exportFormat).Some? ==>
                suggested == Some(SuggestedFileName(diagramName, old(exportFormat).value))
      ensures suggested.Some? && chosenPath.Some? && written ==>
                !showProgressModal && status == Idle && exportFormat == None && downloadUrl == None
                && errorMessage == None && statusTrace == old(statusTrace) + [Idle]
      ensures !(suggested.Some? && chosenPath.Some? && written) ==>
                showProgressModal == old(showProgressModal) && status == old(status)
                && exportFormat == old(exportFormat) && downloadUrl == old(downloadUrl)
                && errorMessage == old(errorMessage) && statusTrace == old(statusTrace)
    {
      if downloadUrl.None? || exportFormat.None? {
        return None;
      }
      suggested := Some(SuggestedFileName(diagramName, exportFormat.value));
      if chosenPath.None? {
        return;
      }
      if written {
        Close();
      }
    }
  }
}
