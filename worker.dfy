/** The compression worker: a session record updated in place by a message
    handler. Each command is one atomic step that returns the messages it
    posts back. A CANCEL that arrives while a compression job is running is
    represented by the job's abort schedule: the check from which the job's
    signal reads as aborted. */
module Worker {
  import opened Wrappers
  import opened PdfModel
  import opened AnalyzePdf
  import opened TargetEngine
  import opened CompressPdf

  datatype Command =
    | Ping
    | InitSession(file: PdfFile?)
    | AnalyzePdfCommand
    | RenderPreview(pageNum: int, params: CompressionParams)
    | RenderOriginal(pageNum: int)
    | StartCompression(params: CompressionParams)
    | Cancel
    | UnknownCommand(name: string)

  datatype Message =
    | Pong
    | SessionInitialized(id: string)
    | AnalysisComplete(id: string, analysis: Analysis)
    | PreviewReady(id: string, bitmap: Bitmap)
    | OriginalReady(id: string, bitmap: Bitmap)
    | ProgressUpdate(id: string, progress: real, status: Option<string>)
    | CompressionComplete(id: string, result: Bytes)
    | Cancelled(id: string)
    | ErrorMessage(id: string, error: string, code: string)

  const NoFileError: JsError := PlainError("No file data provided to worker")
  const NotInitializedError: JsError := PlainError("Session not initialized")
  /** What reading session.file.arrayBuffer throws while no file was set. */
  const NullFileError: JsError := JsError("TypeError", "Cannot read properties of null (reading 'arrayBuffer')", None)

  /** The catch block: CANCELLED for an error named AbortError, otherwise
      ERROR with the message and the code, 'UNKNOWN' when the code is
      missing or empty. */
  function CatchMessage(id: string, e: JsError): (m: Message)
    ensures m.Cancelled? <==> e.name == "AbortError"
    ensures m.Cancelled? || m.ErrorMessage?
    ensures m.id == id
    ensures m.ErrorMessage? ==> m.error == e.message
    ensures m.ErrorMessage? ==> (m.code == "UNKNOWN" <==> e.code.None? || e.code.value == "" || e.code.value == "UNKNOWN")
  {
    if e.name == "AbortError" then Cancelled(id)
    else ErrorMessage(id, e.message, if e.code.Some? && e.code.value != "" then e.code.value else "UNKNOWN")
  }

  /** Every thrown abort is new Error("AbortError"), whose name is "Error",
      so a cancelled job is reported as an ERROR, never as CANCELLED. */
  lemma AbortIsReportedAsError(id: string)
    ensures CatchMessage(id, AbortError) == ErrorMessage(id, "AbortError", "UNKNOWN")
  {
  }

  function ProgressMessages(id: string, events: seq<ProgressEvent>): (ms: seq<Message>)
    ensures |ms| == |events|
    ensures forall j :: 0 <= j < |events| ==> ms[j] == ProgressUpdate(id, events[j].fraction, events[j].status)
  {
    if events == [] then []
    else ProgressMessages(id, events[..|events| - 1])
         + [ProgressUpdate(id, events[|events| - 1].fraction, events[|events| - 1].status)]
  }

  /** What a compression job posts: a PROGRESS_UPDATE per progress call,
      then COMPRESSION_COMPLETE or the catch block's message. */
  function JobMessages(id: string, job: Job): seq<Message>
  {
    ProgressMessages(id, job.progress)
    + [if job.outcome.Success? then CompressionComplete(id, job.outcome.value) else CatchMessage(id, job.outcome.error)]
  }

  /** A job posts exactly one final message after its progress updates: the
      result when it succeeds, the error otherwise. */
  lemma JobMessagesShape(id: string, job: Job)
    ensures var ms := JobMessages(id, job);
      && |ms| == |job.progress| + 1
      && (forall j :: 0 <= j < |job.progress| ==> ms[j].ProgressUpdate? && ms[j].id == id)
      && (ms[|ms| - 1].CompressionComplete? <==> job.outcome.Success?)
      && (job.outcome.Success? ==> ms[|ms| - 1] == CompressionComplete(id, job.outcome.value))
      && (forall j :: 0 <= j < |ms| - 1 ==> !ms[j].CompressionComplete? && !ms[j].ErrorMessage?)
  {
  }

  /** The per-page counts analyzePDF reads from a pdf.js document. */
  function Counts(doc: Doc): (counts: seq<PageCounts>)
    ensures |counts| == |doc|
    ensures forall j :: 0 <= j < |doc| ==> counts[j] == PageCounts(doc[j].imageOps, |doc[j].items|)
  {
    seq(|doc|, j requires 0 <= j < |doc| => PageCounts(doc[j].imageOps, |doc[j].items|))
  }

  /** renderPreviewSample: page lookup, then rendering at dpi and quality. */
  function PreviewSample(tools: PdfTools, doc: Doc, pageNum: int, dpi: int, jpegQuality: real): (r: Result<Bitmap, JsError>)
    ensures !(1 <= pageNum <= |doc|) ==> r == Failure(InvalidPageRequest)
    ensures 1 <= pageNum <= |doc| ==> r == tools.renderSample(doc[pageNum - 1], dpi, jpegQuality)
  {
    match GetPage(doc, pageNum)
    case Failure(e) => Failure(e)
    case Success(page) => tools.renderSample(page, dpi, jpegQuality)
  }

  class AbortController {
    var aborted: bool

    constructor ()
      ensures !aborted
    {
      aborted := false;
    }

    method Abort()
      modifies this
      ensures aborted
    {
      aborted := true;
    }
  }

  class Session {
    var pdf: Option<Doc>
    var file: PdfFile?
    var analysis: Option<Analysis>
    var isCompressing: bool
    var abortController: AbortController?

    /** A document is only ever loaded after its file was recorded. */
    predicate Valid()
      reads this
    {
      pdf.Some? ==> file != null
    }

    constructor ()
      ensures pdf.None? && file == null && analysis.None? && !isCompressing && abortController == null
      ensures Valid()
    {
      pdf := None;
      file := null;
      analysis := None;
      isCompressing := false;
      abortController := null;
    }

    /** self.onmessage for one message. `cancelAt` is the abort schedule of
        a START_COMPRESSION job (None when nobody cancels it). */
    method OnMessage(id: string, cmd: Command, tools: PdfTools, cancelAt: Option<nat>) returns (posted: seq<Message>)
      requires Valid()
      modifies this, abortController
      ensures Valid()
      ensures cmd.Ping? || cmd.UnknownCommand? ==>
        posted == (if cmd.Ping? then [Pong] else [])
        && pdf == old(pdf) && file == old(file) && analysis == old(analysis)
        && isCompressing == old(isCompressing) && abortController == old(abortController)
        && (old(abortController) != null ==> abortController.aborted == old(abortController.aborted))
      ensures cmd.InitSession? ==>
        && analysis == old(analysis) && abortController == old(abortController)
        && (old(abortController) != null ==> abortController.aborted == old(abortController.aborted))
        && (cmd.file == null ==>
              posted == [CatchMessage(id, NoFileError)] && pdf == old(pdf) && file == old(file) && !isCompressing)
        && (cmd.file != null ==>
              && file == cmd.file
              && match tools.open(cmd.file.bytes)
                 case Success(doc) => pdf == Some(doc) && posted == [SessionInitialized(id)] && isCompressing == old(isCompressing)
                 case Failure(e) => pdf == old(pdf) && posted == [CatchMessage(id, e)] && !isCompressing)
      ensures cmd.AnalyzePdfCommand? ==>
        && pdf == old(pdf) && file == old(file) && abortController == old(abortController)
        && (old(abortController) != null ==> abortController.aborted == old(abortController.aborted))
        && (old(pdf).None? ==> posted == [CatchMessage(id, NotInitializedError)] && analysis == old(analysis) && !isCompressing)
        && (old(pdf).Some? ==>
              var a := AnalysisOf(Counts(old(pdf).value), old(file).Size());
              analysis == Some(a) && posted == [AnalysisComplete(id, a)] && isCompressing == old(isCompressing))
      ensures cmd.RenderPreview? || cmd.RenderOriginal? ==>
        && pdf == old(pdf) && file == old(file) && analysis == old(analysis) && abortController == old(abortController)
        && (old(abortController) != null ==> abortController.aborted == old(abortController.aborted))
        && (old(pdf).None? ==> posted == [CatchMessage(id, NotInitializedError)] && !isCompressing)
        && (old(pdf).Some? ==>
              var r := if cmd.RenderPreview?
                       then PreviewSample(tools, old(pdf).value, cmd.pageNum, cmd.params.dpi, cmd.params.jpegQuality)
                       else PreviewSample(tools, old(pdf).value, cmd.pageNum, 150, 1.0);
              && posted == [if r.Failure? then CatchMessage(id, r.error)
                            else if cmd.RenderPreview? then PreviewReady(id, r.value) else OriginalReady(id, r.value)]
              && isCompressing == (old(isCompressing) && r.Success?))
      ensures cmd.StartCompression? ==>
        && pdf == old(pdf) && file == old(file) && analysis == old(analysis)
        && (old(isCompressing) ==>
              posted == [] && isCompressing && abortController == old(abortController)
              && (old(abortController) != null ==> abortController.aborted == old(abortController.aborted)))
        && (!old(isCompressing) ==>
              && !isCompressing
              && abortController != null && fresh(abortController)
              && (old(file) == null ==> posted == [CatchMessage(id, NullFileError)] && !abortController.aborted)
              && (old(file) != null ==>
                    && posted == JobMessages(id, CompressSpec(tools, old(file).bytes, cmd.params, Signal(cancelAt)))
                    && (abortController.aborted <==> cancelAt.Some?)))
      ensures cmd.Cancel? ==>
        && posted == [] && !isCompressing
        && pdf == old(pdf) && file == old(file) && analysis == old(analysis) && abortController == old(abortController)
        && (old(abortController) != null ==> abortController.aborted)
    {
      if cmd.Ping? {
        return [Pong];
      }
      match cmd
      case InitSession(newFile) =>
        if newFile == null {
          posted := [CatchMessage(id, NoFileError)];
          isCompressing := false;
          return;
        }
        var arrayBuffer := newFile.ToArrayBuffer();
        file := newFile;
        var loaded := tools.open(arrayBuffer.bytes);
        arrayBuffer.Detach();
        if loaded.Failure? {
          posted := [CatchMessage(id, loaded.error)];
          isCompressing := false;
          return;
        }
        pdf := Some(loaded.value);
        posted := [SessionInitialized(id)];

      case AnalyzePdfCommand =>
        if pdf.None? {
          posted := [CatchMessage(id, NotInitializedError)];
          isCompressing := false;
          return;
        }
        var result := Analyze(Counts(pdf.value), file.Size());
        analysis := Some(result);
        posted := [AnalysisComplete(id, result)];

      case RenderPreview(pageNum, params) =>
        if pdf.None? {
          posted := [CatchMessage(id, NotInitializedError)];
          isCompressing := false;
          return;
        }
        var imageBitmap := PreviewSample(tools, pdf.value, pageNum, params.dpi, params.jpegQuality);
        if imageBitmap.Failure? {
          posted := [CatchMessage(id, imageBitmap.error)];
          isCompressing := false;
          return;
        }
        posted := [PreviewReady(id, imageBitmap.value)];

      case RenderOriginal(pageNum) =>
        if pdf.None? {
          posted := [CatchMessage(id, NotInitializedError)];
          isCompressing := false;
          return;
        }
        var imageBitmap := PreviewSample(tools, pdf.value, pageNum, 150, 1.0);
        if imageBitmap.Failure? {
          posted := [CatchMessage(id, imageBitmap.error)];
          isCompressing := false;
          return;
        }
        posted := [OriginalReady(id, imageBitmap.value)];

      case StartCompression(params) =>
        if isCompressing {
          return [];
        }
        isCompressing := true;
        var controller := new AbortController();
        abortController := controller;
        if file == null {
          posted := [CatchMessage(id, NullFileError)];
          isCompressing := false;
          return;
        }
        var arrayBuffer := file.ToArrayBuffer();
        var clonedBuffer := arrayBuffer.Slice();
        var job := CompressPDF(clonedBuffer, params, tools, Signal(cancelAt));
        if cancelAt.Some? {
          // the CANCEL handled while the job was running
          controller.Abort();
        }
        posted := JobMessages(id, job);
        isCompressing := false;

      case Cancel =>
        if abortController != null {
          abortController.Abort();
        }
        isCompressing := false;
        posted := [];

      case UnknownCommand(_) =>
        // console.warn only
        posted := [];
    }
  }
}
