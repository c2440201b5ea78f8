# PDF merge, edit and compress — a Dafny model of the core

This project models the core of a browser tool that merges, edits, splits and
compresses PDF files. It covers six parts:

- **Compression.** The worker that owns one open PDF session and answers
  commands: PING, INIT_SESSION, ANALYZE_PDF, RENDER_PREVIEW, RENDER_ORIGINAL,
  START_COMPRESSION and CANCEL.
- **Analysis and parameters.** The document analysis that samples pages and
  classifies them. The target engine that turns a target reduction and a
  quality floor into a strategy, a DPI and a JPEG quality.
- **Strategies and the driver.** The two rasterising strategies: hybrid, which
  keeps an invisible text overlay, and aggressive, which keeps images only.
  The compression driver that runs a pass, refines it once and rebases progress.
- **Merging.** The merge that copies or embeds every selected page, turns it,
  draws the user's annotations and stamps page numbers 1..N.
- **Rendering.** The single-slot document cache used to render pages and to
  extract text positions for the page editor.
- **Editors and dialogs.**
  - The page editor: its bounded undo history, zoom, eraser, delete, text
    snapping, text entry and palette rules.
  - The file editor's page organiser: rotate, drag-to-reorder, remove and save.
  - The split dialog's validation.
  - The page card's thumbnail scale.

Modelling choices:

- **Numbers.** JavaScript numbers are exact `real`s. `Math.round`, `toFixed(2)`,
  `Math.floor` and JavaScript's truncating `%` are written out as explicit
  functions (`JsNumber`).
- **Libraries.** pdf.js and pdf-lib are opaque functions, gathered in records:
  `PdfModel.PdfTools` for the compression side and
  `PdfAssembly.MergeTools` for the merge. Whatever the core itself decides is
  modelled.
- **Mutable state.**
  - The worker session, the abort controller and the array buffers that pdf.js
    detaches are classes updated in place.
  - So are the output documents, the merge's image cache, the render cache, the
    page editor and the page organiser.
  - Each method is proved against a specification function on values.
- **Cancellation.** The abort signal is a schedule, `Signal(abortAt)`: the job
  first sees "aborted" at its `abortAt`-th check. A CANCEL that arrives while a
  compression runs is therefore part of the START_COMPRESSION step, and every
  command stays one atomic step.

Behaviour of the code worth knowing when reading the model:

- `imageRatio` is `images / (images + textItems / 10 || 1)`
  (src/utils/pdf/analyzePDF.js:48). The `|| 1` only replaces a zero
  denominator.
- A scanned document with a target of 80 and the aggressive floor gets 96 DPI
  and JPEG quality 0.68 (`TargetEngine.ScannedAtEighty`).
- CANCEL aborts the running job and posts no message of its own
  (src/utils/pdf/worker/pdfWorkerLogic.js:123-128).
- The abort check throws `new Error("AbortError")`, whose `name` is `"Error"`.
  A cancelled compression is therefore reported as ERROR "AbortError", not
  CANCELLED (`Worker.AbortIsReportedAsError`).
- The embed path of the merge scales the source page as if it were always
  drawn a quarter turn from its container. The merge records that fit as
  written (`PdfAssembly.EmbedFit`); see "## Findings".

## Model

| member | source | states |
|---|---|---|
| JsNumber.Round | src/utils/pdf/targetEngine.js:42 | Math.round lands within half a unit of its argument (x − ½ < r ≤ x + ½) |
| JsNumber.RoundMonotone | src/utils/pdf/targetEngine.js:42 | rounding preserves order |
| JsNumber.RoundOfInteger | src/utils/pdf/targetEngine.js:42 | rounding an integer gives it back |
| JsNumber.Floor | src/components/SplitModal.jsx:21 | parseInt of a positive number is its floor: r ≤ x < r + 1 |
| JsNumber.HalfUpCents | src/utils/pdf/targetEngine.js:43 | toFixed(2) moves a value by at most half a cent |
| JsNumber.ToFixed2Monotone | src/utils/pdf/targetEngine.js:43 | toFixed(2) preserves order on non-negative values |
| JsNumber.ToFixed2OfCents | src/utils/pdf/targetEngine.js:43 | toFixed(2) leaves a whole number of cents unchanged |
| JsNumber.JsRem | src/components/FileEditor.jsx:39 | JavaScript `%`, by repeated subtraction of the divisor, keeps the sign of the dividend: in [0, b) for a ≥ 0, in (−b, 0] for a < 0 |
| JsNumber.JsRemTruncates | src/components/FileEditor.jsx:39 | JavaScript `%` is the Euclidean remainder for a ≥ 0 and its negation on −a for a < 0, i.e. division truncating toward zero |
| JsNumber.JsRemWholeTurns | src/components/FileEditor.jsx:39 | a value and its remainder by 360 differ by whole turns |
| JsNumber.NatToString | src/utils/pdf.js:178 | the decimal text of a page number is non-empty and all digits |
| JsNumber.DigitChar | src/utils/pdf.js:178 | each digit character stands for its digit value |
| JsNumber.NatToStringValue | src/utils/pdf.js:178 | the text of a page number reads back as that number and has no leading zero unless it is 0, so distinct numbers get distinct labels |
| PdfModel.GetPage | src/utils/pdf-render.js:37 | pdf.js getPage(n) succeeds exactly for 1 ≤ n ≤ numPages and returns page n − 1 |
| PdfModel.ArrayBuffer.Slice | src/utils/pdf/compressPDF.js:14 | slice() gives a fresh, undetached buffer with the same bytes |
| PdfModel.ArrayBuffer.Detach | src/utils/pdf/strategies/hybrid.js:12 | handing the buffer to pdf.js detaches it and empties it |
| PdfModel.WithTexts | src/utils/pdf/strategies/hybrid.js:52-58 | drawing texts touches only the last page and appends to its texts |
| PdfModel.WithTextsTwice | src/utils/pdf/strategies/hybrid.js:40-63 | drawing texts twice is drawing their concatenation once |
| PdfModel.OutputDocument.AddPage | src/utils/pdf/strategies/hybrid.js:31 | addPage appends exactly one blank page of the given size |
| PdfModel.OutputDocument.DrawImage | src/utils/pdf/strategies/hybrid.js:32-37 | drawImage adds the image to the last page only |
| PdfModel.OutputDocument.DrawText | src/utils/pdf/strategies/hybrid.js:52-58 | drawText adds the text to the last page only |
| PdfModel.PdfFile.ToArrayBuffer | src/utils/pdf-render.js:18 | file.arrayBuffer() gives a fresh buffer holding the file's bytes |
| TargetEngine.MinDpi | src/utils/pdf/targetEngine.js:19 | the DPI floor of each quality floor lies in [96, 150] |
| TargetEngine.MinQuality | src/utils/pdf/targetEngine.js:20 | the JPEG-quality floor lies in [0.6, 0.85] |
| TargetEngine.RawDpi | src/utils/pdf/targetEngine.js:28 | the unrounded DPI never goes below the floor's minimum |
| TargetEngine.RawQuality | src/utils/pdf/targetEngine.js:31 | the unrounded quality never goes below the floor's minimum |
| TargetEngine.CalculateCompressionParams | src/utils/pdf/targetEngine.js:4-46 | lossless exactly when the document is text-only-like and the target small, with 300 DPI, quality 1 and no size prediction; otherwise aggressive iff scanned or mostly images at a target above 70, DPI and quality at or above the floor, and the predicted size rounded from size × (1 − 0.8 × intensity) |
| TargetEngine.RawAtMost | src/utils/pdf/targetEngine.js:28-31 | for targets ≥ 0 the raw DPI is at most 300 and the raw quality at most 1 |
| TargetEngine.RawMonotone | src/utils/pdf/targetEngine.js:28-31 | a larger target never raises the raw DPI or quality |
| TargetEngine.RoundedAtMost | src/utils/pdf/targetEngine.js:42-43 | the rounded DPI stays ≤ 300 and the rounded quality ≤ 1 |
| TargetEngine.ParamsWithinBounds | src/utils/pdf/targetEngine.js:28-43 | for targets in [0, 100] the DPI lies between the floor's minimum and 300 and the quality between its minimum and 1 |
| TargetEngine.MonotoneInTarget | src/utils/pdf/targetEngine.js:13-31 | raising the target never raises DPI or quality |
| TargetEngine.MinDpiThreshold | src/utils/pdf/targetEngine.js:25-28 | outside the lossless case the DPI sits exactly on the floor's minimum iff the target is at least 67 |
| TargetEngine.FloorOrdering | src/utils/pdf/targetEngine.js:19-31 | at one target, the aggressive floor never gives more DPI or quality than balanced, nor balanced more than any other floor name |
| TargetEngine.ScannedAtEighty | src/utils/pdf/targetEngine.js:28-44 | an all-image scan at 80 % with the aggressive floor gets aggressive, 96 DPI, quality 0.68 and a predicted size of 36 % |
| TargetEngine.TextDocumentStaysLossless | src/utils/pdf/targetEngine.js:13-16 | a text document (image ratio 0.05) at 15 % stays lossless at 300 DPI and quality 1 |
| AnalyzePdf.SetAddRangeKeeps | src/utils/pdf/analyzePDF.js:16-18 | adding a range keeps the set duplicate-free, keeps its old pages first, and holds exactly the old pages and the range |
| AnalyzePdf.SetAddRangeAppends | src/utils/pdf/analyzePDF.js:16-18 | the pages a range adds are new, lie in the range and come in increasing order |
| AnalyzePdf.SetAddRangeFacts | src/utils/pdf/analyzePDF.js:16-18 | adding a range to the sample set keeps it duplicate-free and appends exactly the new pages of the range, in increasing order |
| AnalyzePdf.ProbesSet | src/utils/pdf/analyzePDF.js:13 | inserting the probe pages 1, floor(n/2) and n (those in 1..n) into a Set gives the probe list without duplicates |
| AnalyzePdf.SampleOrderFacts | src/utils/pdf/analyzePDF.js:13-20 | the sampled pages are distinct, start with the probes and continue with the remaining pages of 2..min(n, 10) in increasing order |
| AnalyzePdf.PagesToAnalyze | src/utils/pdf/analyzePDF.js:13-18 | the loop that fills the Set yields exactly the sample order |
| AnalyzePdf.SampleOrderInRange | src/utils/pdf/analyzePDF.js:13 | every sampled page number lies in 1..n |
| AnalyzePdf.FirstOfAppend | src/utils/pdf/analyzePDF.js:34-40 | appending a page keeps an earlier first match of a category and otherwise records the new page if it qualifies |
| AnalyzePdf.ClassifiedIsFirstOf | src/utils/pdf/analyzePDF.js:34-40 | each sample slot (image, text, mixed) holds the first sampled page that qualifies for it |
| AnalyzePdf.VisitStep | src/utils/pdf/analyzePDF.js:20-40 | visiting the next sampled page adds its image and text counts to the totals and classifies it after the pages before it |
| AnalyzePdf.Analyze | src/utils/pdf/analyzePDF.js:5-58 | the counting loop computes the analysis record of the sampled pages |
| AnalyzePdf.RatioFacts | src/utils/pdf/analyzePDF.js:48 | the image ratio lies in [0, 1], is 1 iff there are images and no text, and is 0 without images |
| AnalyzePdf.AnalysisRatios | src/utils/pdf/analyzePDF.js:48-55 | both ratios lie in [0, 1] and add up to 1, and isScanned holds iff the image ratio is 1 |
| AnalyzePdf.AnalysisSamples | src/utils/pdf/analyzePDF.js:34-46 | each sample page is the first qualifying sampled page, page 1 by default |
| AnalyzePdf.EmptyDocument | src/utils/pdf/analyzePDF.js:13-48 | a document without pages analyses to zero images, text ratio 1 and samples on page 1 |
| CompressPdf.ExecuteStrategy | src/utils/pdf/compressPDF.js:47-60 | one pass: abort check, then hybrid, aggressive or lossless on the given buffer, as the specification function says |
| CompressPdf.Refine | src/utils/pdf/compressPDF.js:28-32 | refining keeps the strategy, prediction and target and only lowers DPI and quality |
| CompressPdf.Direct | src/utils/pdf/compressPDF.js:17 | first-pass progress is reported unchanged, one event per call |
| CompressPdf.Rebased | src/utils/pdf/compressPDF.js:39-41 | second-pass progress is mapped into [0.5, 1] with the refinement status |
| CompressPdf.CompressPDF | src/utils/pdf/compressPDF.js:8-45 | the driver's result and progress are those of the job specification, and the caller's buffer is untouched |
| CompressPdf.RefinementIff | src/utils/pdf/compressPDF.js:17-39 | the job runs one or two passes, two iff the first returned bytes, no abort followed it, the strategy is not lossless and the result falls more than 10 points short of the target |
| CompressPdf.RefinementThreshold | src/utils/pdf/compressPDF.js:23-26 | for a non-empty original, refinement is needed iff result × 100 > original × (110 − target) |
| CompressPdf.ScaleByPositive | src/utils/pdf/compressPDF.js:23-26 | comparing ratios by cross-multiplying with a positive size preserves the comparison |
| CompressPdf.RefineIsStricter | src/utils/pdf/compressPDF.js:30-31 | the refined DPI and quality never exceed the originals, stay at or above 96 and 0.6, and are strictly lower above those floors |
| CompressPdf.RefineExample | src/utils/pdf/compressPDF.js:30-31 | 150 DPI / 0.85 refine to 135 DPI / 0.68 |
| CompressPdf.RunProgressInUnit | src/utils/pdf/strategies/hybrid.js:65 | every progress value a page loop reports lies in (0, 1] |
| CompressPdf.ExecuteProgressInUnit | src/utils/pdf/compressPDF.js:47-60 | every progress value a pass reports lies in (0, 1] |
| CompressPdf.DirectInUnit | src/utils/pdf/compressPDF.js:35 | the first pass's events carry its own fractions, which lie in [0, 1] |
| CompressPdf.RebasedInHalf | src/utils/pdf/compressPDF.js:39-41 | the refinement pass's fractions, mapped to 0.5 + p/2, lie in [0.5, 1] |
| CompressPdf.TwoPassRange | src/utils/pdf/compressPDF.js:35-41 | first-pass events, the 0.5 "Refining" event and rebased events together stay in [0, 1], and in [0.5, 1] from the refining event on |
| CompressPdf.ProgressInRange | src/utils/pdf/compressPDF.js:35-41 | every reported fraction lies in [0, 1]; with refinement, the "Refining for target..." event at 0.5 comes first and all later fractions lie in [0.5, 1] |
| CompressPdf.AbortBeforeDispatch | src/utils/pdf/compressPDF.js:48 | a signal already aborted fails the job with AbortError before any work or progress |
| CompressPdf.AbortUpToFirstPassFails | src/utils/pdf/compressPDF.js:19 | an abort raised at any check up to the one after the first pass fails the job |
| CompressPdf.LosslessJob | src/utils/pdf/compressPDF.js:50-58 | a lossless job is one re-save with no progress reports |
| PageLoop.RenderScale | src/utils/pdf/strategies/hybrid.js:9-10 | the render scale is dpi / 72 and positive |
| PageLoop.NonBlank | src/utils/pdf/strategies/hybrid.js:52 | only items whose trimmed text is non-empty are kept |
| PageLoop.OverlayStep | src/utils/pdf/strategies/hybrid.js:40-63 | from item k on, the overlay skips a blank item, stops at one the font cannot encode, and otherwise draws it and goes on |
| PageLoop.OverlayIsPrefixOfNonBlank | src/utils/pdf/strategies/hybrid.js:40-63 | the overlay holds the non-blank items in order up to the first one the font cannot encode |
| PageLoop.OverlayInvisible | src/utils/pdf/strategies/hybrid.js:52-58 | every overlaid text has opacity 0 and non-blank content |
| PageLoop.UnscaledIsIdentity | src/utils/pdf/strategies/aggressive.js:45 | viewport / scale is the page's original point size |
| PageLoop.PageOutputShape | src/utils/pdf/strategies/hybrid.js:19-37 | each output page has the page's point size and one image covering it; aggressive pages carry no text |
| PageLoop.FractionsValues | src/utils/pdf/strategies/hybrid.js:65 | the k-th progress report is k / totalPages |
| PageLoop.FractionOrder | src/utils/pdf/strategies/hybrid.js:65 | page fractions are positive, increasing and at most 1 |
| PageLoop.FractionInRange | src/utils/pdf/strategies/hybrid.js:65 | a page count a of n pages, 0 < a ≤ n, gives a fraction in (0, 1] |
| PageLoop.FractionAt | src/utils/pdf/strategies/hybrid.js:65 | after k pages the j-th report is (j + 1) / n |
| PageLoop.FractionsFacts | src/utils/pdf/strategies/hybrid.js:65 | progress is strictly increasing, in (0, 1], and ends at 1 after the last page |
| PageLoop.PassFacts | src/utils/pdf/strategies/hybrid.js:16-66 | after k pages either one output page and one report per page was made, or the loop stopped at the first abort or failure |
| PageLoop.StoppedPersists | src/utils/pdf/strategies/hybrid.js:17 | once the loop stops, later pages are never processed |
| PageLoop.RunSucceeds | src/utils/pdf/strategies/hybrid.js:16-68 | a successful run opened the document, made one output page per page and reported i/n after page i |
| PageLoop.AbortStopsRun | src/utils/pdf/strategies/hybrid.js:17 | an abort seen before page j + 1 fails the run instead of returning bytes, with no progress reported from page j + 1 on |
| PageLoop.RunWithoutFailure | src/utils/pdf/strategies/aggressive.js:22-56 | without an abort and with every page rasterised, the run succeeds |
| HybridStrategy.DrawOverlay | src/utils/pdf/strategies/hybrid.js:40-63 | the inner loop draws exactly the overlay on the last page; an encoding failure ends it without failing the page |
| HybridStrategy.AddHybridPage | src/utils/pdf/strategies/hybrid.js:29-37 | appends one page of the page's size with the image at (0,0) covering it, then the overlay |
| HybridStrategy.CompressHybrid | src/utils/pdf/strategies/hybrid.js:8-69 | the page loop's result equals the run specification, and the input buffer ends detached |
| AggressiveStrategy.AddAggressivePage | src/utils/pdf/strategies/aggressive.js:45-51 | appends one page of the original size with a single image filling it and no text |
| AggressiveStrategy.CompressAggressive | src/utils/pdf/strategies/aggressive.js:9-57 | the page loop's result equals the run specification, and the input buffer ends detached |
| Worker.CatchMessage | src/utils/pdf/worker/pdfWorkerLogic.js:134-142 | CANCELLED iff the error's name is AbortError; otherwise ERROR with its message and its code, UNKNOWN when absent |
| Worker.AbortIsReportedAsError | src/utils/pdf/worker/pdfWorkerLogic.js:136-139 | the driver's abort error is reported as ERROR "AbortError", code UNKNOWN |
| Worker.ProgressMessages | src/utils/pdf/worker/pdfWorkerLogic.js:114-116 | one PROGRESS_UPDATE per progress call, in order, with its fraction and status |
| Worker.JobMessagesShape | src/utils/pdf/worker/pdfWorkerLogic.js:114-120 | a job posts its progress updates, then exactly one final message: COMPLETE iff it succeeded |
| Worker.Counts | src/utils/pdf/worker/pdfWorkerLogic.js:67 | one image and text count per page of the open document |
| Worker.PreviewSample | src/utils/pdf/worker/pdfWorkerLogic.js:78-93 | a page number outside 1..numPages is an invalid page request; inside it, the result is renderSample of page pageNum − 1 at the given DPI and quality |
| Worker.AbortController.Abort | src/utils/pdf/worker/pdfWorkerLogic.js:125 | abort() marks the controller aborted |
| Worker.Session.constructor | src/utils/pdf/worker/pdfWorkerLogic.js:21-27 | the session starts with no pdf, file, analysis or controller and not compressing |
| Worker.Session.OnMessage | src/utils/pdf/worker/pdfWorkerLogic.js:34-143 | per command: PING posts PONG and changes nothing; INIT_SESSION sets file and pdf or posts ERROR; ANALYZE stores the analysis; only START and CANCEL touch the abort controller; renders use the payload or 150 DPI / quality 1; START is ignored while compressing (the running controller is not touched) and otherwise posts the job's messages; CANCEL aborts and posts nothing; an unknown command does nothing |
| PdfAssembly.HexDigitValue | src/utils/pdf.js:8 | a hexadecimal digit reads as a value below 16 |
| PdfAssembly.ColorDigits | src/utils/pdf.js:5 | the pattern captures exactly six hexadecimal digits |
| PdfAssembly.Component | src/utils/pdf.js:8 | each colour component is a byte over 255, in [0, 1] |
| PdfAssembly.HexToRgb | src/utils/pdf.js:4-12 | components in [0, 1], opacity passed through with default 1, black for any string the pattern rejects |
| PdfAssembly.HexDigitChar | src/utils/pdf.js:8 | the digit written for a value reads back as that value |
| PdfAssembly.ColorRoundTrip | src/utils/pdf.js:5-8 | hexToRgb reads back the bytes of any #rrggbb colour in either case, with or without '#' |
| PdfAssembly.PaletteRed | src/utils/pdf.js:5-8 | the editor's red "#ef4444" parses to (239, 68, 68) / 255 |
| PdfAssembly.TransformPoint | src/utils/pdf.js:15-26 | the mapping to PDF space is inverted case by case by the editor-point mapping |
| PdfAssembly.HalfTurnInvolution | src/utils/pdf.js:19-20 | the 180° mapping applied twice is the identity |
| PdfAssembly.StaysOnPage | src/utils/pdf.js:15-26 | at 0° and 180° a point of the page box stays in the box |
| PdfAssembly.AnnotationScale | src/utils/pdf.js:36-50 | 0.5 unless the annotation recorded a non-zero preview width and height |
| PdfAssembly.ScaledBound | src/utils/pdf.js:36-50 | y ≤ a / x implies x·y ≤ a for x > 0 |
| PdfAssembly.AnnotationScaleFits | src/utils/pdf.js:36-50 | with a recorded size, the scaled preview fits the page as shown and touches one side |
| PdfAssembly.AddedRotation | src/utils/pdf.js:132 | the added rotation lies within (−360, 360) |
| PdfAssembly.AddedRotationWholeTurns | src/utils/pdf.js:132 | the added rotation differs from the requested one by whole turns |
| PdfAssembly.TotalRotation | src/utils/pdf.js:133 | the total rotation lies within (−360, 360) |
| PdfAssembly.TotalRotationWholeTurns | src/utils/pdf.js:133 | the total rotation differs from source + requested rotation by whole turns |
| PdfAssembly.SameParity | src/utils/pdf.js:137 | removing whole turns (four quarter turns each) keeps the parity of the number of quarter turns |
| PdfAssembly.HalfTurnRem | src/utils/pdf.js:137 | for −3..3 quarter turns, the remainder by 180 is non-zero iff the count is odd |
| PdfAssembly.OddQuarterTurns | src/utils/pdf.js:137 | for multiples of 90, r % 360 % 180 ≠ 0 iff the number of quarter turns is odd |
| PdfAssembly.EmbedOnOddQuarterTurns | src/utils/pdf.js:137 | the embed path is taken exactly for an odd number of quarter turns |
| PdfAssembly.EmbedScale | src/utils/pdf.js:142-148 | the embed scale as written is positive |
| PdfAssembly.EmbedFit | src/utils/pdf.js:142-148 | the fit the code records: the container is the source's shown size, the drawing is always taken as turned a quarter, and its scale is the code's scale |
| PdfAssembly.UprightEmbedFits | src/utils/pdf.js:142-148 | for an upright source page the embed scale fits it, turned a quarter, into a page of its size |
| PdfAssembly.SidewaysEmbedOverflows | src/utils/pdf.js:142-148 | a 612×792 page with /Rotate 90 turned a further 90° is embedded with the code's fit, drawn at 180° at scale 1, and overflows its container |
| PdfAssembly.FitScale | src/utils/pdf.js:142-148 | Math.min of the two box-to-drawing ratios is positive and fits the drawing inside the box |
| PdfAssembly.FittedEmbed | src/utils/pdf.js:142-148 | the embedded page's container is the page's effective size; the drawing is swapped only on a quarter total turn |
| PdfAssembly.FittedEmbedScale | src/utils/pdf.js:142-148 | the corrected embed scale is positive |
| PdfAssembly.FittedEmbedFits | src/utils/pdf.js:142-148 | the corrected scale fits the page, drawn at the total rotation, inside its container |
| PdfAssembly.FittedAgreesWhenUpright | src/utils/pdf.js:137-148 | for upright source pages the corrected scale equals the one the code computes |
| PdfAssembly.PageNumberPlacement | src/utils/pdf.js:176-205 | the label is counter-rotated: 360 − rotation for 90, 180 and 270, 0 otherwise |
| PdfAssembly.PlacementCentred | src/utils/pdf.js:176-205 | the label's baseline is centred 20 units inside the bottom edge as the page is shown |
| PdfAssembly.MapPoints | src/utils/pdf.js:53 | one mapped point per path point, each the image of the scaled editor point |
| PdfAssembly.MapPoint | src/utils/pdf.js:53 | a mapped point maps back to the scaled editor point |
| PdfAssembly.AnnotationMark | src/utils/pdf.js:55-122 | drawing throws iff it is a text the font cannot encode; nothing is drawn iff the type is unknown or the image fails to embed |
| PdfAssembly.DrawableCount | src/utils/pdf.js:55-122 | at most one mark per annotation |
| PdfAssembly.AnnotationMarksFacts | src/utils/pdf.js:28-125 | a page's annotations fail iff one of them throws; otherwise each drawable annotation leaves one mark, a failed image being skipped |
| PdfAssembly.MarksFailurePersists | src/utils/pdf.js:28-125 | after the first throwing annotation the page fails with that error |
| PdfAssembly.TargetPage | src/utils/pdf.js:127-165 | a new page without marks that shows the right source page |
| PdfAssembly.TargetPageWholeTurns | src/utils/pdf.js:127-165 | the target page shows its source at source + requested rotation, up to whole turns, on either path |
| PdfAssembly.PageFor | src/utils/pdf.js:127-174 | a missing source index throws; a finished page comes from its source page and ends with its own number |
| PdfAssembly.NumberedAppend | src/utils/pdf.js:176-208 | a page labelled with the next number extends a numbered run |
| PdfAssembly.NumberedConcat | src/utils/pdf.js:210-239 | two numbered runs that follow each other make one |
| PdfAssembly.CopiedAll | src/utils/pdf.js:224-230 | without a page list every page is copied unturned, in order |
| PdfAssembly.CopiedAllNumbered | src/utils/pdf.js:224-230 | the copied pages are numbered from the running count, in order |
| PdfAssembly.ConfigPages | src/utils/pdf.js:232-234 | one page per page configuration |
| PdfAssembly.ConfigPagesNumbered | src/utils/pdf.js:232-234 | an item's configured pages are numbered from the running count, in order |
| PdfAssembly.ConfigFailurePersists | src/utils/pdf.js:232-234 | once a page configuration fails, the item fails with that error |
| PdfAssembly.ConfigPagesStep | src/utils/pdf.js:232-234 | one more configuration adds its page, numbered after the pages so far, or fails |
| PdfAssembly.ItemPages | src/utils/pdf.js:219-235 | an item adds its page count of pages, and a file that fails to load fails |
| PdfAssembly.ItemPagesNumbered | src/utils/pdf.js:219-235 | an item's pages are numbered from the running count, in order |
| PdfAssembly.Merged | src/utils/pdf.js:210-239 | the merge holds the total page count of the items, and any unloadable file fails it |
| PdfAssembly.MergedNumbered | src/utils/pdf.js:210-239 | the merge numbers all pages 1..N across the items |
| PdfAssembly.MergedFailurePersists | src/utils/pdf.js:210-239 | once an item fails, the merge fails with that error |
| PdfAssembly.MergedAdvance | src/utils/pdf.js:210-239 | an item's error is the merge's error; otherwise the merge so far grows by the item's pages |
| PdfAssembly.MergedStep | src/utils/pdf.js:210-239 | each further item appends its pages numbered after those before it, or fails |
| PdfAssembly.WithMarks | src/utils/pdf.js:55-122 | drawing touches only the last page and appends to its marks |
| PdfAssembly.WithNoMarks | src/utils/pdf.js:29 | drawing nothing leaves the pages unchanged |
| PdfAssembly.WithMarksOnNewPage | src/utils/pdf.js:127-174 | marks drawn on a fresh page are all that page holds |
| PdfAssembly.WithMarksAppend | src/utils/pdf.js:55-122 | drawing twice is drawing the concatenation once |
| PdfAssembly.MergedDocument.constructor | src/utils/pdf.js:211 | the merged document starts empty |
| PdfAssembly.MergedDocument.AddPage | src/utils/pdf.js:145-164 | addPage appends exactly the given page |
| PdfAssembly.MergedDocument.Draw | src/utils/pdf.js:55-122 | a draw call adds one mark to the last page only |
| PdfAssembly.ImageCache.constructor | src/utils/pdf.js:216 | the image cache starts empty |
| PdfAssembly.ImageCache.Get | src/utils/pdf.js:84 | a lookup gives the cached image iff the URL is cached |
| PdfAssembly.ImageCache.Set | src/utils/pdf.js:91 | storing overwrites only that URL's entry |
| PdfAssembly.DrawAnnotation | src/utils/pdf.js:55-122 | draws exactly the annotation's mark, or throws its error, and keeps the image cache consistent with the embedder |
| PdfAssembly.ApplyAnnotations | src/utils/pdf.js:28-125 | the loop draws exactly the page's marks in order, or stops at the first throwing annotation |
| PdfAssembly.DrawPageNumber | src/utils/pdf.js:176-208 | the page-number label is drawn last on the last page |
| PdfAssembly.ProcessPage | src/utils/pdf.js:127-174 | appends exactly the finished page, or reports its error |
| PdfAssembly.AddTargetPage | src/utils/pdf.js:127-165 | the page added is exactly the target page: a copy turned to the total rotation, or on a quarter turn an embedded drawing with the code's fit at the total rotation |
| PdfAssembly.CopiedStep | src/utils/pdf.js:224-230 | copying and numbering source page k appends copied page k |
| PdfAssembly.CopyAllPages | src/utils/pdf.js:224-230 | appends the copied, numbered pages and advances the page counter by their number |
| PdfAssembly.ProcessConfigAt | src/utils/pdf.js:232-234 | one loop step appends the page of configuration k, or reports its error |
| PdfAssembly.ProcessConfigs | src/utils/pdf.js:232-234 | the loop appends the item's configured pages and advances the counter, or reports the first error |
| PdfAssembly.AddItem | src/utils/pdf.js:218-236 | one item's pages are appended with consecutive numbers, or its error is reported |
| PdfAssembly.MergePdfs | src/utils/pdf.js:210-239 | the saved bytes are those of the specified merged pages, or the merge's error |
| PdfRender.RenderCache.constructor | src/utils/pdf-render.js:7-8 | both cache slots start empty |
| PdfRender.RenderCache.LoadPdf | src/utils/pdf-render.js:10-22 | a hit for the same file object returns the cached document without loading; a miss opens the file, replaces both slots on success and keeps them on failure; the result always equals opening the file |
| PdfRender.GetPdfPageCount | src/utils/pdf-render.js:24-32 | numPages of the file, 0 when it cannot be loaded |
| PdfRender.PageImage | src/utils/pdf-render.js:34-56 | a URL iff the document loads, page pageIndex + 1 exists and rendering succeeds; the URL is the rendering |
| PdfRender.RenderPageToImage | src/utils/pdf-render.js:34-56 | the cached path returns the page image of the file, null on any error |
| PdfRender.Entry | src/utils/pdf-render.js:67-96 | x = tx[4], height = abs(tx[3]) ≥ 0, bottomY − y = height, viewportHeight − bottomY = tx[5] |
| PdfRender.TextEntries | src/utils/pdf-render.js:67-97 | one entry per text item, in order |
| PdfRender.EntryRecoversOrigin | src/utils/pdf-render.js:70-92 | every item's text, left edge and baseline can be read back from its entry |
| PdfRender.ExtractPageText | src/utils/pdf-render.js:58-102 | the entries of page pageIndex + 1, or [] when loading or the page lookup fails |
| PageEditor.PushHistory | src/components/PageEditor.jsx:125-133 | the new history keeps the entries up to the index, appends the new list and keeps the newest 50 |
| PageEditor.UndoIndex | src/components/PageEditor.jsx:135 | undo steps back one entry only from a positive index |
| PageEditor.RedoIndex | src/components/PageEditor.jsx:136 | redo steps forward one entry only before the last one |
| PageEditor.UndoAfterPush | src/components/PageEditor.jsx:125-135 | after a push, undo returns to the list that was current before it |
| PageEditor.UndoRedoInverse | src/components/PageEditor.jsx:135-136 | redo undoes an undo and undo undoes a redo, where each moved |
| PageEditor.ZoomedIn | src/components/PageEditor.jsx:137 | zooming in adds 0.1 but never passes 3 |
| PageEditor.ZoomedOut | src/components/PageEditor.jsx:138 | zooming out takes 0.1 but never goes below 0.5 |
| PageEditor.ZoomRoundTrip | src/components/PageEditor.jsx:137-138 | away from the clamps, zooming in and out return to the same scale |
| PageEditor.Filtered | src/components/PageEditor.jsx:180-194 | filter never lengthens the list |
| PageEditor.FilteredMembers | src/components/PageEditor.jsx:180-194 | filter keeps only elements of the list that are not dropped, and keeps every one of them |
| PageEditor.FilteredSingleton | src/components/PageEditor.jsx:180-194 | a single element is kept exactly when it is not dropped |
| PageEditor.FilteredConcat | src/components/PageEditor.jsx:180-194 | filtering a concatenation filters each part, so kept elements keep their order and their count |
| PageEditor.FilteredShrinks | src/components/PageEditor.jsx:180-198 | nothing dropped leaves the list as it was; anything dropped makes it shorter |
| PageEditor.Remaining | src/components/PageEditor.jsx:180-194 | exactly the annotations the eraser does not hit are kept, so unknown types always stay |
| PageEditor.RemainingInOrder | src/components/PageEditor.jsx:180-194 | the eraser works element by element: a concatenation loses what each part loses, and one annotation stays exactly when it is not hit, so order and duplicates are kept |
| PageEditor.RemainingShrinks | src/components/PageEditor.jsx:180-198 | a miss leaves the list unchanged, and a hit makes it shorter |
| PageEditor.WithoutIndex | src/components/PageEditor.jsx:329-331 | exactly the element at the index is removed, the others keep their order; an index outside the list removes nothing |
| PageEditor.FirstGrab | src/components/PageEditor.jsx:156-173 | the first text item whose padded box contains the point, −1 when none does |
| PageEditor.PaletteColor | src/components/PageEditor.jsx:85-97 | the highlighter forces a highlight colour (yellow unless already one); pen and text force a pen colour (black unless already one); other tools keep the colour |
| PageEditor.PaletteIdempotent | src/components/PageEditor.jsx:85-97 | applying the palette rule twice changes nothing more |
| PageEditor.MetaOf | src/components/PageEditor.jsx:302 | the recorded size is empty exactly when the preview size is unknown |
| PageEditor.Editor.constructor | src/components/PageEditor.jsx:59-78 | the editor opens at scale 1 with the select tool, black, and a history holding only the initial annotations |
| PageEditor.Editor.AddToHistory | src/components/PageEditor.jsx:125-133 | the history becomes the pushed history, the index its last entry, and the current annotations the added list |
| PageEditor.Editor.Undo | src/components/PageEditor.jsx:135 | only the index moves, to the undo index; every other field is unchanged |
| PageEditor.Editor.Redo | src/components/PageEditor.jsx:136 | only the index moves, to the redo index; every other field is unchanged |
| PageEditor.Editor.ZoomIn | src/components/PageEditor.jsx:137 | the scale becomes the zoomed-in scale and stays in [0.5, 3]; every other field is unchanged |
| PageEditor.Editor.ZoomOut | src/components/PageEditor.jsx:138 | the scale becomes the zoomed-out scale and stays in [0.5, 3]; every other field is unchanged |
| PageEditor.Editor.EraseAt | src/components/PageEditor.jsx:177-199 | with radius 10 / scale, the remaining annotations are pushed iff something was hit; otherwise nothing changes; the fields other than the history are unchanged |
| PageEditor.Editor.DeleteAnnotation | src/components/PageEditor.jsx:329-331 | pushes the current list without the element at the index; the fields other than the history are unchanged |
| PageEditor.Editor.FindTextSnap | src/components/PageEditor.jsx:149-174 | no snap without text items or a preview size; otherwise the snap of the first item whose padded box holds the point |
| PageEditor.Editor.TextComplete | src/components/PageEditor.jsx:293-306 | pushes a text annotation exactly when the input is open and its trimmed value is non-empty, and always closes the input; scale, tool, colour, preview size and text items are unchanged |
| PageEditor.Editor.SetTool | src/components/PageEditor.jsx:85-97 | a change of tool applies the palette rule to the colour; history, index, scale, text input, preview size and text items are unchanged |
| FileEditor.QuarterTurn | src/components/FileEditor.jsx:39 | the new rotation differs from rotation + 90 by whole turns, and lies in [0, 360) for non-negative rotations |
| FileEditor.QuarterTurnValue | src/components/FileEditor.jsx:39 | from [0, 360), a quarter turn adds 90 below 270 and wraps to rotation − 270 from 270 on |
| FileEditor.FourQuarterTurns | src/components/FileEditor.jsx:39 | four quarter turns restore any rotation in [0, 360) |
| FileEditor.Rotated | src/components/FileEditor.jsx:37-41 | only pages with the id are turned, and nothing else changes |
| FileEditor.RotatedFourTimes | src/components/FileEditor.jsx:37-41 | rotating a page four times restores the page list |
| FileEditor.FindIndex | src/components/FileEditor.jsx:30-31 | the first index with the id, −1 iff none has it |
| FileEditor.ArrayMove | src/components/FileEditor.jsx:32 | the moved element lands at the target, and the others keep their order |
| FileEditor.ArrayMovePermutes | src/components/FileEditor.jsx:32 | a move is a permutation of the list |
| FileEditor.ArrayMoveBack | src/components/FileEditor.jsx:32 | moving the element back restores the list |
| FileEditor.SpliceIndex | src/components/FileEditor.jsx:30-32 | a −1 index from findIndex acts on the last element, as splice reads it |
| FileEditor.WithoutId | src/components/FileEditor.jsx:53 | the list never grows |
| FileEditor.WithoutIdConcat | src/components/FileEditor.jsx:53 | removing from a concatenation removes from each part, and a single page stays exactly when it has another id: the remaining pages keep their order and count |
| FileEditor.WithoutIdKeeps | src/components/FileEditor.jsx:53 | exactly the pages without the id remain, and none is added |
| FileEditor.WithoutAbsentId | src/components/FileEditor.jsx:53 | removing an id no page has changes nothing |
| FileEditor.InitialAnnotations | src/components/FileEditor.jsx:142 | a page without saved annotations opens with none |
| FileEditor.Organizer.constructor | src/components/FileEditor.jsx:8-10 | the organiser starts with the given pages, no active page and no annotations |
| FileEditor.Organizer.HandleDragEnd | src/components/FileEditor.jsx:26-35 | no change without a target or onto itself; otherwise the dragged page moves to the target's place; always a permutation |
| FileEditor.Organizer.HandleRotate | src/components/FileEditor.jsx:37-41 | the pages become the rotated list, and the rest of the state is kept |
| FileEditor.Organizer.HandleRemove | src/components/FileEditor.jsx:43-57 | once confirmed, the pages with the id are removed (the rest in order, by WithoutIdConcat), its annotations key is removed and an active page with that id is closed; unconfirmed, nothing changes |
| FileEditor.Organizer.HandleSaveAnnotations | src/components/FileEditor.jsx:68-73 | the page's annotations are replaced, and every other page's are kept |
| FileEditor.Organizer.HandleSave | src/components/FileEditor.jsx:59-66 | the save request is exactly the current pages and annotations |
| SplitModal.TotalPages | src/components/SplitModal.jsx:9 | 0 in bulk mode, otherwise the file's page count or 0 |
| SplitModal.HandleSubmit | src/components/SplitModal.jsx:11-22 | the split is made iff the interval is ≥ 1 and, outside bulk mode, below the page count; the split value is the integer part; each rejection carries its message |
| SplitModal.BulkAcceptsEveryInterval | src/components/SplitModal.jsx:17-21 | in bulk mode every interval ≥ 1 splits |
| SplitModal.ShortFileRejectsEverything | src/components/SplitModal.jsx:17-20 | a file of at most one page rejects every interval |
| SplitModal.DefaultIntervalSplits | src/components/SplitModal.jsx:6-21 | the default interval 2 splits a 3-page file and is rejected for a 2-page file with "(2)" |
| PageCard.GetScale | src/components/PageCard.jsx:41-46 | 1 without image size or on a half turn; otherwise in (0, 1], the shorter over the longer side, and below 1 iff the sides differ |
| PageCard.ShorterOverLonger | src/components/PageCard.jsx:45 | min(w/h, h/w) times the longer side is the shorter side |
| PageCard.QuotientsOfUnequal | src/components/PageCard.jsx:45 | for 0 < a < b, a/b < 1 < b/a |
| PageCard.SignOfProduct | src/components/PageCard.jsx:45 | a non-positive number times a positive one is non-positive |
| PageCard.ScaleSymmetric | src/components/PageCard.jsx:45 | swapping width and height leaves the scale unchanged |

## Left out

- src/utils/pdf/strategies/lossless.js and src/utils/pdf/previewEngine.js are not part of this model: they only call pdf-lib and OffscreenCanvas. They appear as the opaque `resave` and `renderSample` calls.
- pdf.js and pdf-lib themselves are opaque functions: parsing, rendering, rasterising to JPEG, embedding, text measurement, font encoding and saving.
- The centring of the embedded page by cosine and sine (src/utils/pdf.js:151-157) is left out. The embedded content records its fit and rotation, not its drawing origin. Its scale is recorded as the fit it is computed from (drawn size and container size), and `PdfAssembly.FitScale` gives the number passed to pdf-lib.
- The overlay font size by square root (src/utils/pdf/strategies/hybrid.js:50) is left out. Overlay text keeps its position, content and opacity.
- PageEditor.Near: the eraser compares squared distances, not `Math.hypot`. For a positive radius this is the same test on exact reals.
- Floating point is modelled as exact reals. Binary rounding of ratios, of zoom steps (`1 + 0.1 + …`) and of the page fractions is not modelled.
- `downloadPDF` (src/utils/pdf.js:241-250), `file.arrayBuffer()` reading, FileReader image upload (`handleImageUpload`), `window.confirm` and postMessage transfer lists are left out. The confirm answer is the `confirmed` parameter of HandleRemove.
- The page editor's drawing gestures are left out: the press, move and release handlers, the in-progress path and committing it. Their history effect is AddToHistory, which is modelled.
- The editor's reset effect on a page change and its per-page text cache are left out, along with canvas click handling.
- The SVG path string the editor builds for display (src/utils/pdf.js:59) is left out. Paths are drawn from their mapped points.
- The UI components are left out: CompressModal, PreviewPane, Controls, DropZone, FileList, Modal, Header and main.jsx. This includes CompressModal's display-only 0.7 estimate and its debounce timer.
- App.jsx state glue is left out: ids, Promise.all and timers. The worker polyfill is also left out.
- Asynchronous interleaving of worker messages is not modelled. Each command is one atomic step, and a CANCEL during compression is the job's abort schedule.
- PageEditor.Remaining: the text box width uses the string length in characters, not in UTF-16 code units.
- SplitModal.HandleSubmit: the interval is a number (None for NaN; an empty field reads as 0). parseInt is modelled as the floor of a positive value, which differs from JavaScript for values of 1e21 and above, printed in exponent form.
- FileEditor.Organizer.HandleDragEnd: on an empty page list the model leaves the list unchanged, whereas arrayMove would insert `undefined`. A drag needs a page, so this cannot happen in the UI.
- The text items of a page are part of the page value, so a failure of `getTextContent` alone is not modelled. Page.height is the scale-1 viewport height.
- TargetEngine.CalculateCompressionParams: the target reduction is an integer, as the slider produces.
- PdfAssembly.ConfigPages, PdfAssembly.ItemPages, PdfAssembly.Merged: the contracts state counts and failure, and the numbering lemmas beside them state the numbers, not the content of each page. The content is stated page by page by PdfAssembly.PageFor and PdfAssembly.TargetPage.
- Page copying, embedding and saving (`embedPages`, `copyPages` and `save` at src/utils/pdf.js:139, :162, :225 and :238) are assumed to succeed. A throw from pdf-lib at those calls is not modelled; only loading, annotation images and text encoding can fail the merge.
- PageEditor.Filtered, FileEditor.WithoutId: the function contracts state the length only. Membership, order and multiplicity are stated by PageEditor.FilteredMembers, PageEditor.FilteredConcat with PageEditor.FilteredSingleton, FileEditor.WithoutIdKeeps and FileEditor.WithoutIdConcat.
- PdfAssembly.AddedRotation, PdfAssembly.TotalRotation: the contracts state the range only. The congruence with the requested rotation is stated by the `…WholeTurns` lemmas beside them.
- PdfAssembly.TargetPage: the contract states that the page has no marks and shows the right source item and page. Its size, path and fit come from its definition, which AddTargetPage implements; its rotation is stated by TargetPageWholeTurns.

## Findings

| source | as written | input that shows it | evidently intended | confidence | as-written member | corrected member |
|---|---|---|---|---|---|---|
| src/utils/pdf.js:142-148 | the embed path scales the source page as if it were always drawn a quarter turn from its container, even when source and added rotation together make 0° or 180° | a 612×792 source page with /Rotate 90 and an editor rotation of 90: total 180°, scale 1, the 792-high drawing overflows the 612-high container | the embedded page fits its container at the rotation it is drawn | not executed | PdfAssembly.SidewaysEmbedOverflows | PdfAssembly.FittedEmbedFits |
