/** compressHybrid: every page is rasterised into a JPEG background, and the
    page's text is drawn over it invisibly so that it stays searchable. */
module HybridStrategy {
  import opened Wrappers
  import opened PdfModel
  import opened TargetEngine
  import opened PageLoop

  /** The try block drawing a page's text items over its background. */
  method DrawOverlay(outPdfDoc: OutputDocument, canEncode: string -> bool, items: seq<TextItem>)
    requires |outPdfDoc.pages| > 0
    modifies outPdfDoc
    ensures outPdfDoc.pages == WithTexts(old(outPdfDoc.pages), Overlay(canEncode, items))
  {
    ghost var before := outPdfDoc.pages;
    ghost var drawn: seq<OverlayText> := [];
    assert before[|before| - 1].texts + drawn == before[|before| - 1].texts;
    assert outPdfDoc.pages == WithTexts(before, drawn);
    var k := 0;
    while k < |items|
      invariant 0 <= k <= |items|
      invariant outPdfDoc.pages == WithTexts(before, drawn)
      invariant Overlay(canEncode, items) == drawn + Overlay(canEncode, items[k..])
      decreases |items| - k
    {
      var item := items[k];
      OverlayStep(canEncode, items, k);
      if !JsNumber.IsBlank(item.str) {
        if !canEncode(item.str) {
          // drawText throws; the catch abandons the rest of this page's overlay
          break;
        }
        outPdfDoc.DrawText(OverlayText(item.str, item.transform.e, item.transform.f, 0.0));
        WithTextsTwice(before, drawn, [Invisible(item)]);
        drawn := drawn + [Invisible(item)];
      }
      k := k + 1;
    }
    assert Overlay(canEncode, items) == drawn by {
      if k == |items| {
        assert items[k..] == [];
      }
    }
  }

  /** One iteration's drawing: a page of the scale-1 viewport size, the
      background image covering it, then the overlay. */
  method AddHybridPage(outPdfDoc: OutputDocument, page: Page, image: Bytes, canEncode: string -> bool)
    modifies outPdfDoc
    ensures outPdfDoc.pages == old(outPdfDoc.pages) + [OutPage(page.width, page.height,
      [PlacedImage(image, Rect(0.0, 0.0, page.width, page.height))], Overlay(canEncode, page.items))]
  {
    ghost var done := outPdfDoc.pages;
    outPdfDoc.AddPage(page.width, page.height);
    assert outPdfDoc.pages[..|outPdfDoc.pages| - 1] == done;
    outPdfDoc.DrawImage(image, Rect(0.0, 0.0, page.width, page.height));
    ghost var placed := PlacedImage(image, Rect(0.0, 0.0, page.width, page.height));
    ghost var background := OutPage(page.width, page.height, [placed], []);
    assert OutPage(page.width, page.height, [], []).(images := [] + [placed]) == background;
    assert outPdfDoc.pages == done + [background];
    DrawOverlay(outPdfDoc, canEncode, page.items);
    assert (done + [background])[..|done|] == done;
    assert background.(texts := [] + Overlay(canEncode, page.items))
        == OutPage(page.width, page.height, [placed], Overlay(canEncode, page.items));
  }

  /** The whole strategy. pdf.js takes the buffer it parses, which leaves it
      detached. */
  method CompressHybrid(arrayBuffer: ArrayBuffer, params: CompressionParams, tools: PdfTools,
                        signal: Signal, firstCheck: nat) returns (run: Run)
    requires !arrayBuffer.detached
    modifies arrayBuffer
    ensures arrayBuffer.detached
    ensures run == RunPages(HybridPass, tools, old(arrayBuffer.bytes), params, signal, firstCheck)
  {
    var scale := RenderScale(params.dpi);
    var data := arrayBuffer.bytes;
    arrayBuffer.Detach();
    var loaded := tools.open(data);
    if loaded.Failure? {
      return Run(Failure(loaded.error), [], 0);
    }
    var pdf := loaded.value;
    var outPdfDoc := new OutputDocument();
    var totalPages := |pdf|;
    var progress: seq<real> := [];

    var i := 1;
    while i <= totalPages
      invariant 1 <= i <= totalPages + 1
      invariant arrayBuffer.detached
      invariant PassOver(HybridPass, tools, pdf, params, signal, firstCheck, i - 1) == Running(outPdfDoc.pages, progress)
      decreases totalPages - i
    {
      if AbortSeen(signal, firstCheck, i - 1) {
        StoppedPersists(HybridPass, tools, pdf, params, signal, firstCheck, i, totalPages);
        return Run(Failure(AbortError), progress, totalPages);
      }
      var page := GetPage(pdf, i).value;
      var rendered := tools.rasterize(page, scale, params.jpegQuality);
      if rendered.Failure? {
        StoppedPersists(HybridPass, tools, pdf, params, signal, firstCheck, i, totalPages);
        return Run(Failure(rendered.error), progress, totalPages);
      }
      AddHybridPage(outPdfDoc, page, rendered.value, tools.canEncode);
      progress := progress + [i as real / totalPages as real];
      i := i + 1;
    }
    run := Run(Success(tools.save(outPdfDoc.pages)), progress, totalPages);
  }
}
