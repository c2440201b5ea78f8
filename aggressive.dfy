/** compressAggressive: every page becomes one full-page JPEG, without text. */
module AggressiveStrategy {
  import opened Wrappers
  import opened PdfModel
  import opened TargetEngine
  import opened PageLoop

  /** One iteration's drawing: a page of the scaled viewport's size divided
      by the scale, the image filling it. */
  method AddAggressivePage(outPdfDoc: OutputDocument, page: Page, scale: real, image: Bytes)
    requires scale > 0.0
    modifies outPdfDoc
    ensures var width := Unscaled(page.width, scale);
      var height := Unscaled(page.height, scale);
      outPdfDoc.pages == old(outPdfDoc.pages) + [OutPage(width, height, [PlacedImage(image, Rect(0.0, 0.0, width, height))], [])]
  {
    var viewportWidth := page.width * scale;
    var viewportHeight := page.height * scale;
    ghost var done := outPdfDoc.pages;
    outPdfDoc.AddPage(viewportWidth / scale, viewportHeight / scale);
    assert outPdfDoc.pages[..|outPdfDoc.pages| - 1] == done;
    var fill := Rect(0.0, 0.0, viewportWidth / scale, viewportHeight / scale);
    outPdfDoc.DrawImage(image, fill);
    assert viewportWidth / scale == Unscaled(page.width, scale);
    assert viewportHeight / scale == Unscaled(page.height, scale);
    ghost var placed := PlacedImage(image, fill);
    assert OutPage(viewportWidth / scale, viewportHeight / scale, [], []).(images := [] + [placed])
        == OutPage(viewportWidth / scale, viewportHeight / scale, [placed], []);
  }

  /** The whole strategy. pdf.js takes the buffer it parses, which leaves it
      detached. */
  method CompressAggressive(arrayBuffer: ArrayBuffer, params: CompressionParams, tools: PdfTools,
                            signal: Signal, firstCheck: nat) returns (run: Run)
    requires !arrayBuffer.detached
    modifies arrayBuffer
    ensures arrayBuffer.detached
    ensures run == RunPages(AggressivePass, tools, old(arrayBuffer.bytes), params, signal, firstCheck)
  {
    var scale := RenderScale(params.dpi);
    var data := arrayBuffer.bytes;
    arrayBuffer.Detach();
    var loaded := tools.open(data);
    if loaded.Failure? {
      return Run(Failure(loaded.error), [], 0);
    }
    var pdf := loaded.value;
    var outPdfDoc := new OutputDocument();
    var totalPages := |pdf|;
    var progress: seq<real> := [];

    var i := 1;
    while i <= totalPages
      invariant 1 <= i <= totalPages + 1
      invariant arrayBuffer.detached
      invariant PassOver(AggressivePass, tools, pdf, params, signal, firstCheck, i - 1) == Running(outPdfDoc.pages, progress)
      decreases totalPages - i
    {
      if AbortSeen(signal, firstCheck, i - 1) {
        StoppedPersists(AggressivePass, tools, pdf, params, signal, firstCheck, i, totalPages);
        return Run(Failure(AbortError), progress, totalPages);
      }
      var page := GetPage(pdf, i).value;
      var rendered := tools.rasterize(page, scale, params.jpegQuality);
      if rendered.Failure? {
        StoppedPersists(AggressivePass, tools, pdf, params, signal, firstCheck, i, totalPages);
        return Run(Failure(rendered.error), progress, totalPages);
      }
      AddAggressivePage(outPdfDoc, page, scale, rendered.value);
      progress := progress + [i as real / totalPages as real];
      i := i + 1;
    }
    run := Run(Success(tools.save(outPdfDoc.pages)), progress, totalPages);
  }
}
