/** What the core sees of a PDF, of the browser and of the two PDF libraries
    (pdf.js to read and render, pdf-lib to write). Library calls are opaque
    functions gathered in `PdfTools`; everything the core itself decides is
    modelled in the other modules. */
module PdfModel {
  import opened Wrappers

  type Bytes = seq<bv8>

  /** A decoded bitmap or image, as bytes the core never looks into. */
  type Bitmap = seq<bv8>

  /** Page dimensions of a pdf.js viewport are positive. */
  type PosReal = r: real | r > 0.0 witness 1.0

  /** A pdf.js text item's transform [scaleX, skewY, skewX, scaleY, x, y]. */
  datatype Transform = Transform(a: real, b: real, c: real, d: real, e: real, f: real)

  /** One entry of page.getTextContent().items. */
  datatype TextItem = TextItem(str: string, transform: Transform, width: real)

  /** A pdf.js page: its scale-1 viewport size, the number of image-painting
      operators (paintImageXObject, paintInlineImageXObject) in its operator
      list, and its text items. */
  datatype Page = Page(width: PosReal, height: PosReal, imageOps: nat, items: seq<TextItem>)

  /** A document opened by pdf.js; page i (1-based) is doc[i - 1]. */
  type Doc = seq<Page>

  /** A thrown JavaScript error: its name, message and optional code. */
  datatype JsError = JsError(name: string, message: string, code: Option<string>)

  /** new Error(message) */
  function PlainError(message: string): JsError
  {
    JsError("Error", message, None)
  }

  /** What every abort check throws: new Error("AbortError"), whose name is "Error". */
  const AbortError: JsError := PlainError("AbortError")

  /** pdf.js rejects getPage(n) unless 1 <= n <= numPages. */
  const InvalidPageRequest: JsError := PlainError("Invalid page request.")

  function GetPage(doc: Doc, pageNum: int): (r: Result<Page, JsError>)
    ensures r.Success? <==> 1 <= pageNum <= |doc|
    ensures r.Success? ==> r.value == doc[pageNum - 1]
  {
    if 1 <= pageNum <= |doc| then Success(doc[pageNum - 1]) else Failure(InvalidPageRequest)
  }

  /** Geometry of an image drawn on an output page. */
  datatype Rect = Rect(x: real, y: real, width: real, height: real)

  /** Text drawn by drawText over a rasterised page. */
  datatype OverlayText = OverlayText(str: string, x: real, y: real, opacity: real)

  /** An embedded JPEG drawn by drawImage. */
  datatype PlacedImage = PlacedImage(image: Bytes, rect: Rect)

  /** A page of a pdf-lib output document: its size and what was drawn on it. */
  datatype OutPage = OutPage(width: real, height: real, images: seq<PlacedImage>, texts: seq<OverlayText>)

  /** The library calls the core makes, as opaque functions. */
  datatype PdfTools = PdfTools(
    // pdfjsLib.getDocument({ data }).promise
    open: Bytes -> Result<Doc, JsError>,
    // page.render at a scale, canvas.convertToBlob as JPEG at a quality, embedJpg
    rasterize: (Page, real, real) -> Result<Bytes, JsError>,
    // whether drawText with the default Helvetica font accepts the string
    canEncode: string -> bool,
    // outPdfDoc.save({ useObjectStreams: true })
    save: seq<OutPage> -> Bytes,
    // compressLossless: PDFDocument.load followed by save
    resave: Bytes -> Result<Bytes, JsError>,
    // renderPreviewSample(pdf page, dpi, jpegQuality)
    renderSample: (Page, int, real) -> Result<Bitmap, JsError>,
    // renderPageToImage's canvas render and toDataURL('image/jpeg', 0.8)
    renderDataUrl: (Page, real) -> Result<string, JsError>)

  /** The cancellation a job observes. A job counts the times it reads
      `abortSignal?.aborted`; with abortAt = Some(k) every read from the k-th
      on (counting from 0) sees true, with None (no signal, or nobody
      cancels) none does. */
  datatype Signal = Signal(abortAt: Option<nat>)

  predicate Aborted(signal: Signal, check: nat)
  {
    signal.abortAt.Some? && signal.abortAt.value <= check
  }

  /** A JavaScript ArrayBuffer. pdf.js takes ownership of the bytes it is
      given to parse, which detaches the buffer: it then reads as empty. */
  class ArrayBuffer {
    var bytes: Bytes
    var detached: bool

    constructor (b: Bytes)
      ensures bytes == b && !detached
    {
      bytes := b;
      detached := false;
    }

    /** arrayBuffer.slice(0): a fresh buffer holding the same bytes. */
    method Slice() returns (copy: ArrayBuffer)
      requires !detached
      ensures fresh(copy) && copy.bytes == bytes && !copy.detached
    {
      copy := new ArrayBuffer(bytes);
    }

    /** Transfer of the buffer to pdf.js. */
    method Detach()
      modifies this
      ensures detached && bytes == []
    {
      detached := true;
      bytes := [];
    }
  }

  /** A pdf-lib document being built (PDFDocument.create()). */
  /** The pages with `texts` drawn on the page added last. */
  function WithTexts(pages: seq<OutPage>, texts: seq<OverlayText>): (r: seq<OutPage>)
    requires |pages| > 0
    ensures |r| == |pages| && r[..|r| - 1] == pages[..|pages| - 1]
    ensures r[|r| - 1] == pages[|pages| - 1].(texts := pages[|pages| - 1].texts + texts)
  {
    var last := pages[|pages| - 1];
    pages[..|pages| - 1] + [last.(texts := last.texts + texts)]
  }

  /** Drawing a then b on the last page draws a + b. */
  lemma WithTextsTwice(pages: seq<OutPage>, a: seq<OverlayText>, b: seq<OverlayText>)
    requires |pages| > 0
    ensures WithTexts(WithTexts(pages, a), b) == WithTexts(pages, a + b)
  {
    var last := pages[|pages| - 1];
    assert last.texts + a + b == last.texts + (a + b);
  }

  class OutputDocument {
    var pages: seq<OutPage>

    constructor ()
      ensures pages == []
    {
      pages := [];
    }

    /** addPage([width, height]) */
    method AddPage(width: real, height: real)
      modifies this
      ensures pages == old(pages) + [OutPage(width, height, [], [])]
    {
      pages := pages + [OutPage(width, height, [], [])];
    }

    /** drawImage on the page added last. */
    method DrawImage(image: Bytes, rect: Rect)
      requires |pages| > 0
      modifies this
      ensures var last := old(pages)[|old(pages)| - 1];
        pages == old(pages)[..|old(pages)| - 1] + [last.(images := last.images + [PlacedImage(image, rect)])]
    {
      var last := pages[|pages| - 1];
      pages := pages[..|pages| - 1] + [last.(images := last.images + [PlacedImage(image, rect)])];
    }

    /** drawText on the page added last. */
    method DrawText(text: OverlayText)
      requires |pages| > 0
      modifies this
      ensures pages == WithTexts(old(pages), [text])
    {
      var last := pages[|pages| - 1];
      pages := pages[..|pages| - 1] + [last.(texts := last.texts + [text])];
    }
  }

  /** A browser File: compared by identity, its size is its byte length. */
  class PdfFile {
    const bytes: Bytes

    constructor (b: Bytes)
      ensures bytes == b
    {
      bytes := b;
    }

    function Size(): nat
    {
      |bytes|
    }

    /** file.arrayBuffer(): a fresh buffer with the file's bytes. */
    method ToArrayBuffer() returns (buffer: ArrayBuffer)
      ensures fresh(buffer) && buffer.bytes == bytes && !buffer.detached
    {
      buffer := new ArrayBuffer(bytes);
    }
  }
}
