/** Page rendering for the editor: a single-slot cache of the last opened
    document, the page count, a page thumbnail and the text items of a page
    moved to top-left screen coordinates. */
module PdfRender {
  import opened Wrappers
  import opened JsNumber
  import opened PdfModel

  /** `file.arrayBuffer` read on a missing file. */
  const NullFileError: JsError := JsError("TypeError", "Cannot read properties of null (reading 'arrayBuffer')", None)

  /** The module-level cachedPdf / cachedFile pair. */
  class RenderCache {
    var cachedPdf: Option<Doc>
    var cachedFile: PdfFile?

    /** The slot holds what opening the cached file gives. */
    predicate Consistent(tools: PdfTools)
      reads this
    {
      cachedPdf.Some? ==> cachedFile != null && tools.open(cachedFile.bytes) == Success(cachedPdf.value)
    }

    constructor ()
      ensures cachedPdf.None? && cachedFile == null
    {
      cachedPdf := None;
      cachedFile := null;
    }

    /** loadPdf: a hit when a document is cached for this very file object;
        otherwise open the file and, if that succeeds, replace both slots. */
    method LoadPdf(file: PdfFile?, tools: PdfTools) returns (r: Result<Doc, JsError>)
      requires Consistent(tools)
      modifies this
      ensures Consistent(tools)
      ensures old(cachedPdf).Some? && old(cachedFile) == file ==>
        r == Success(old(cachedPdf).value) && cachedPdf == old(cachedPdf) && cachedFile == old(cachedFile)
      ensures !(old(cachedPdf).Some? && old(cachedFile) == file) ==>
        && (file == null ==> r == Failure(NullFileError))
        && (file != null ==> r == tools.open(file.bytes))
        && (r.Success? ==> cachedPdf == Some(r.value) && cachedFile == file)
        && (r.Failure? ==> cachedPdf == old(cachedPdf) && cachedFile == old(cachedFile))
      ensures file != null ==> r == tools.open(file.bytes)
    {
      if cachedPdf.Some? && cachedFile == file {
        return Success(cachedPdf.value);
      }
      if file == null {
        return Failure(NullFileError);
      }
      var arrayBuffer := file.ToArrayBuffer();
      r := tools.open(arrayBuffer.bytes);
      if r.Success? {
        cachedPdf := Some(r.value);
        cachedFile := file;
      }
    }
  }

  /** getPdfPageCount: numPages, 0 when loading fails. */
  method GetPdfPageCount(cache: RenderCache, file: PdfFile, tools: PdfTools) returns (count: nat)
    requires cache.Consistent(tools)
    modifies cache
    ensures cache.Consistent(tools)
    ensures count == match tools.open(file.bytes) case Success(doc) => |doc| case Failure(_) => 0
  {
    var pdf := cache.LoadPdf(file, tools);
    if pdf.Failure? {
      return 0;
    }
    return |pdf.value|;
  }

  /** The data URL of a rendered page, None on any error. The 0-based
      pageIndex names pdf.js page pageIndex + 1. */
  function PageImage(tools: PdfTools, loaded: Result<Doc, JsError>, pageIndex: int, scale: real): (url: Option<string>)
    ensures url.Some? <==>
      (loaded.Success? && 0 <= pageIndex < |loaded.value| && tools.renderDataUrl(loaded.value[pageIndex], scale).Success?)
    ensures url.Some? ==> tools.renderDataUrl(loaded.value[pageIndex], scale) == Success(url.value)
  {
    if loaded.Failure? then None
    else match GetPage(loaded.value, pageIndex + 1)
      case Failure(_) => None
      case Success(page) =>
        match tools.renderDataUrl(page, scale)
        case Failure(_) => None
        case Success(url) => Some(url)
  }

  /** renderPageToImage */
  method RenderPageToImage(cache: RenderCache, file: PdfFile, pageIndex: int, scale: real, tools: PdfTools)
    returns (url: Option<string>)
    requires cache.Consistent(tools)
    modifies cache
    ensures cache.Consistent(tools)
    ensures url == PageImage(tools, tools.open(file.bytes), pageIndex, scale)
  {
    var pdf := cache.LoadPdf(file, tools);
    if pdf.Failure? {
      return None;
    }
    var page := GetPage(pdf.value, pageIndex + 1);
    if page.Failure? {
      return None;
    }
    var rendered := tools.renderDataUrl(page.value, scale);
    if rendered.Failure? {
      return None;
    }
    return Some(rendered.value);
  }

  /** One entry of extractPageText's result: the item's box with its top at
      y, measured down from the top of the page. */
  datatype TextEntry = TextEntry(
    str: string,
    x: real,
    y: real,
    bottomY: real,
    width: real,
    height: real,
    rawTransform: Transform,
    viewportHeight: PosReal)

  /** The text entry of one item on a page of the given viewport height. */
  function Entry(item: TextItem, viewportHeight: PosReal): (e: TextEntry)
    ensures e.str == item.str && e.x == item.transform.e && e.width == item.width
    ensures e.height >= 0.0 && (e.height == item.transform.d || e.height == -item.transform.d)
    ensures e.bottomY - e.y == e.height
    ensures viewportHeight - e.bottomY == item.transform.f
  {
    var pdfHeight := Abs(item.transform.d);
    TextEntry(item.str, item.transform.e, viewportHeight - item.transform.f - pdfHeight,
              viewportHeight - item.transform.f, item.width, pdfHeight, item.transform, viewportHeight)
  }

  /** textContent.items.map(...) at scale 1. */
  function TextEntries(page: Page): (entries: seq<TextEntry>)
    ensures |entries| == |page.items|
    ensures forall i :: 0 <= i < |entries| ==> entries[i] == Entry(page.items[i], page.height)
  {
    seq(|page.items|, i requires 0 <= i < |page.items| => Entry(page.items[i], page.height))
  }

  /** The baseline and the left edge of every item can be read back from its
      entry: the mapping loses nothing but the sign of the font height. */
  lemma EntryRecoversOrigin(page: Page)
    ensures var entries := TextEntries(page);
      forall i :: 0 <= i < |entries| ==>
        entries[i].x == page.items[i].transform.e
        && page.height - entries[i].bottomY == page.items[i].transform.f
        && entries[i].str == page.items[i].str
  {
  }

  /** extractPageText: [] when loading, the page lookup or the mapping fails. */
  method ExtractPageText(cache: RenderCache, file: PdfFile, pageIndex: int, tools: PdfTools)
    returns (entries: seq<TextEntry>)
    requires cache.Consistent(tools)
    modifies cache
    ensures cache.Consistent(tools)
    ensures var loaded := tools.open(file.bytes);
      entries == if loaded.Success? && 0 <= pageIndex < |loaded.value| then TextEntries(loaded.value[pageIndex]) else []
  {
    var pdf := cache.LoadPdf(file, tools);
    if pdf.Failure? {
      return [];
    }
    var page := GetPage(pdf.value, pageIndex + 1);
    if page.Failure? {
      return [];
    }
    return TextEntries(page.value);
  }
}
