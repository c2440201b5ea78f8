/** Assembling the merged document: colour parsing, the editor-to-PDF
    coordinate mapping, the drawing of annotations, the rotation of each
    output page and the page numbers stamped on every page. pdf-lib calls
    (loading, embedding, saving, measuring text) are opaque functions in
    `MergeTools`. */
module PdfAssembly {
  import opened Wrappers
  import opened JsNumber
  import opened PdfModel
  import opened Annotations

  // ----------------------------------------------------------------------
  // Colours

  datatype Rgb = Rgb(red: real, green: real, blue: real)

  const Black: Rgb := Rgb(0.0, 0.0, 0.0)

  datatype Color = Color(rgb: Rgb, opacity: real)

  predicate IsHexDigit(c: char)
  {
    '0' <= c <= '9' || 'a' <= c <= 'f' || 'A' <= c <= 'F'
  }

  predicate AllHex(s: string)
  {
    forall i :: 0 <= i < |s| ==> IsHexDigit(s[i])
  }

  /** parseInt of one hexadecimal digit. */
  function HexDigitValue(c: char): (v: nat)
    requires IsHexDigit(c)
    ensures v < 16
  {
    if '0' <= c <= '9' then c as int - '0' as int
    else if 'a' <= c <= 'f' then c as int - 'a' as int + 10
    else c as int - 'A' as int + 10
  }

  /** The six digits captured by /^#?([a-f\d]{2})([a-f\d]{2})([a-f\d]{2})$/i:
      an optional leading '#', then exactly six digits of either case. */
  function ColorDigits(hex: string): (digits: Option<string>)
    ensures digits.Some? ==> |digits.value| == 6 && AllHex(digits.value)
  {
    var body := if |hex| > 0 && hex[0] == '#' then hex[1..] else hex;
    if |body| == 6 && AllHex(body) then Some(body) else None
  }

  /** The k-th captured pair read as a byte, divided by 255. */
  function Component(digits: string, k: nat): (v: real)
    requires |digits| == 6 && AllHex(digits) && k < 3
    ensures 0.0 <= v <= 1.0
  {
    (HexDigitValue(digits[2 * k]) * 16 + HexDigitValue(digits[2 * k + 1])) as real / 255.0
  }

  /** hexToRgb(hex, opacity = 1): black for a string the pattern rejects. */
  function HexToRgb(hex: string, opacity: Option<real>): (c: Color)
    ensures c.opacity == opacity.GetOr(1.0)
    ensures 0.0 <= c.rgb.red <= 1.0 && 0.0 <= c.rgb.green <= 1.0 && 0.0 <= c.rgb.blue <= 1.0
    ensures ColorDigits(hex).None? ==> c.rgb == Black
  {
    match ColorDigits(hex)
    case None => Color(Black, opacity.GetOr(1.0))
    case Some(digits) => Color(Rgb(Component(digits, 0), Component(digits, 1), Component(digits, 2)), opacity.GetOr(1.0))
  }

  function HexDigitChar(v: nat, upper: bool): (c: char)
    requires v < 16
    ensures IsHexDigit(c) && HexDigitValue(c) == v
  {
    if v < 10 then ('0' as int + v) as char
    else if upper then ('A' as int + v - 10) as char
    else ('a' as int + v - 10) as char
  }

  function ByteDigits(b: nat, upper: bool): (s: string)
    requires b < 256
  {
    [HexDigitChar(b / 16, upper), HexDigitChar(b % 16, upper)]
  }

  /** A CSS colour #rrggbb, in lower- or upper-case digits. */
  function CssColor(red: nat, green: nat, blue: nat, upper: bool): (s: string)
    requires red < 256 && green < 256 && blue < 256
  {
    ['#'] + ByteDigits(red, upper) + ByteDigits(green, upper) + ByteDigits(blue, upper)
  }

  /** hexToRgb reads back the bytes of any #rrggbb colour, whatever the case
      of its digits and with or without the '#'. */
  lemma {:induction false} ColorRoundTrip(red: nat, green: nat, blue: nat, upper: bool, opacity: Option<real>)
    requires red < 256 && green < 256 && blue < 256
    ensures var expected := Color(Rgb(red as real / 255.0, green as real / 255.0, blue as real / 255.0), opacity.GetOr(1.0));
      && HexToRgb(CssColor(red, green, blue, upper), opacity) == expected
      && HexToRgb(CssColor(red, green, blue, upper)[1..], opacity) == expected
  {
    var s := CssColor(red, green, blue, upper);
    var digits := s[1..];
    assert digits == ByteDigits(red, upper) + ByteDigits(green, upper) + ByteDigits(blue, upper);
    assert AllHex(digits);
    assert ColorDigits(s) == Some(digits);
    assert ColorDigits(digits) == Some(digits);
    assert HexDigitValue(digits[0]) * 16 + HexDigitValue(digits[1]) == red;
    assert HexDigitValue(digits[2]) * 16 + HexDigitValue(digits[3]) == green;
    assert HexDigitValue(digits[4]) * 16 + HexDigitValue(digits[5]) == blue;
  }

  /** The pen red of the editor palette. */
  lemma PaletteRed()
    ensures HexToRgb("#ef4444", None) == Color(Rgb(239.0 / 255.0, 68.0 / 255.0, 68.0 / 255.0), 1.0)
  {
    ColorRoundTrip(239, 68, 68, false, None);
    assert HexDigitChar(14, false) == 'e' && HexDigitChar(15, false) == 'f' && HexDigitChar(4, false) == '4';
    assert ByteDigits(239, false) == "ef" && ByteDigits(68, false) == "44";
    assert CssColor(239, 68, 68, false) == "#ef4444";
  }

  // ----------------------------------------------------------------------
  // Editor coordinates to PDF coordinates

  /** transformPoint: from the editor's top-left origin to PDF user space
      of a page turned by `rotation`; an angle other than 90, 180 and 270
      is treated as 0. */
  function TransformPoint(x: real, y: real, rotation: int, w: real, h: real): (p: Point)
    ensures EditorPoint(p, rotation, w, h) == Point(x, y)
  {
    if rotation == 90 then Point(y, w - x)
    else if rotation == 180 then Point(w - x, h - y)
    else if rotation == 270 then Point(h - y, x)
    else Point(x, h - y)
  }

  /** The editor point a PDF point came from, case by case. */
  function EditorPoint(p: Point, rotation: int, w: real, h: real): Point
  {
    if rotation == 90 then Point(w - p.y, p.x)
    else if rotation == 180 then Point(w - p.x, h - p.y)
    else if rotation == 270 then Point(p.y, h - p.x)
    else Point(p.x, h - p.y)
  }

  /** The half-turn mapping is its own inverse. */
  lemma HalfTurnInvolution(x: real, y: real, w: real, h: real)
    ensures var p := TransformPoint(x, y, 180, w, h);
      TransformPoint(p.x, p.y, 180, w, h) == Point(x, y)
  {
  }

  /** Upright and upside down, a point of the page box stays in the box. */
  lemma StaysOnPage(x: real, y: real, rotation: int, w: real, h: real)
    requires rotation != 90 && rotation != 270
    requires 0.0 <= x <= w && 0.0 <= y <= h
    ensures var p := TransformPoint(x, y, rotation, w, h);
      0.0 <= p.x <= w && 0.0 <= p.y <= h
  {
  }

  // ----------------------------------------------------------------------
  // Annotation scale

  /** A JavaScript truthy number: present and not zero. */
  predicate Truthy(v: Option<real>)
  {
    v.Some? && v.value != 0.0
  }

  /** The page size as the editor shows it: swapped on a quarter turn. */
  function VisualWidth(rotation: int, pdfWidth: real, pdfHeight: real): real
  {
    if JsRem(rotation, 180) == 0 then pdfWidth else pdfHeight
  }

  function VisualHeight(rotation: int, pdfWidth: real, pdfHeight: real): real
  {
    if JsRem(rotation, 180) == 0 then pdfHeight else pdfWidth
  }

  /** The factor from editor pixels to PDF units: the larger that keeps the
      recorded preview inside the page as shown, 0.5 without a recorded size. */
  function AnnotationScale(meta: Meta, rotation: int, pdfWidth: real, pdfHeight: real): (scale: real)
    ensures !(Truthy(meta.width) && Truthy(meta.height)) ==> scale == 0.5
  {
    if Truthy(meta.width) && Truthy(meta.height) then
      MinReal(VisualWidth(rotation, pdfWidth, pdfHeight) / meta.width.value,
              VisualHeight(rotation, pdfWidth, pdfHeight) / meta.height.value)
    else 0.5
  }

  /** x * (a / x) == a and y <= a / x imply x * y <= a, for x > 0. */
  lemma ScaledBound(x: real, y: real, a: real)
    requires x > 0.0 && y <= a / x
    ensures x * y <= a && x * (a / x) == a
  {
  }

  /** With a recorded size, the scaled preview fits the page as shown and
      touches it on one side. */
  lemma AnnotationScaleFits(meta: Meta, rotation: int, pdfWidth: real, pdfHeight: real)
    requires meta.width.Some? && meta.width.value > 0.0
    requires meta.height.Some? && meta.height.value > 0.0
    requires pdfWidth > 0.0 && pdfHeight > 0.0
    ensures var scale := AnnotationScale(meta, rotation, pdfWidth, pdfHeight);
      var visualWidth := VisualWidth(rotation, pdfWidth, pdfHeight);
      var visualHeight := VisualHeight(rotation, pdfWidth, pdfHeight);
      && scale > 0.0
      && meta.width.value * scale <= visualWidth
      && meta.height.value * scale <= visualHeight
      && (meta.width.value * scale == visualWidth || meta.height.value * scale == visualHeight)
  {
    var scale := AnnotationScale(meta, rotation, pdfWidth, pdfHeight);
    var visualWidth := VisualWidth(rotation, pdfWidth, pdfHeight);
    var visualHeight := VisualHeight(rotation, pdfWidth, pdfHeight);
    ScaledBound(meta.width.value, scale, visualWidth);
    ScaledBound(meta.height.value, scale, visualHeight);
  }

  // ----------------------------------------------------------------------
  // Page rotation in processPage

  /** A page of a loaded source document: its size and its /Rotate angle. */
  datatype SourcePage = SourcePage(width: PosReal, height: PosReal, rotation: int)

  /** addedRotation = rotation % 360 */
  function AddedRotation(rotation: int): (added: int)
    ensures -360 < added < 360
  {
    JsRem(rotation, 360)
  }

  /** The added rotation turns the page as far as the requested one. */
  lemma AddedRotationWholeTurns(rotation: int)
    ensures (rotation - AddedRotation(rotation)) % 360 == 0
  {
    JsRemWholeTurns(rotation);
  }

  /** totalRotation = (sourceRotation + addedRotation) % 360 */
  function TotalRotation(sourceRotation: int, rotation: int): (total: int)
    ensures -360 < total < 360
  {
    JsRem(sourceRotation + AddedRotation(rotation), 360)
  }

  /** The total rotation turns the page as far as its own /Rotate and the
      requested rotation together. */
  lemma TotalRotationWholeTurns(sourceRotation: int, rotation: int)
    ensures (sourceRotation + rotation - TotalRotation(sourceRotation, rotation)) % 360 == 0
  {
    var added := AddedRotation(rotation);
    AddedRotationWholeTurns(rotation);
    JsRemWholeTurns(sourceRotation + added);
    WholeTurnsSum(sourceRotation + added - JsRem(sourceRotation + added, 360), rotation - added);
  }

  /** The embed-and-scale path is taken iff addedRotation % 180 != 0. */
  predicate UsesEmbed(rotation: int)
  {
    JsRem(AddedRotation(rotation), 180) != 0
  }

  /** Of a whole number of quarter turns, JavaScript's r % 360 % 180 is
      non-zero exactly for an odd number of them. */
  lemma OddQuarterTurns(r: int)
    requires r % 90 == 0
    ensures JsRem(JsRem(r, 360), 180) != 0 <==> (r / 90) % 2 == 1
  {
    var a := JsRem(r, 360);
    JsRemWholeTurns(r);
    var q := r / 90;
    var m := (r - a) / 360;
    assert r == 90 * q;
    assert r - a == 360 * m;
    var p := q - 4 * m;
    assert a == 90 * p;
    SameParity(q, m);
    HalfTurnRem(p);
  }

  lemma SameParity(q: int, m: int)
    ensures (q - 4 * m) % 2 == q % 2
  {
    assert q == 2 * (q / 2) + q % 2;
    assert q - 4 * m == 2 * (q / 2 - 2 * m) + q % 2;
  }

  /** JavaScript's (90 p) % 180 for the quarter turns a remainder mod 360
      can hold. */
  lemma HalfTurnRem(p: int)
    requires -4 < p < 4
    ensures JsRem(90 * p, 180) != 0 <==> p % 2 == 1
  {
    if p == -3 { assert JsRem(-270, 180) == -90; }
    else if p == -2 { assert JsRem(-180, 180) == 0; }
    else if p == -1 { assert JsRem(-90, 180) == -90; }
    else if p == 0 { assert JsRem(0, 180) == 0; }
    else if p == 1 { assert JsRem(90, 180) == 90; }
    else if p == 2 { assert JsRem(180, 180) == 0; }
    else { assert JsRem(270, 180) == 90; }
  }

  /** A page is embedded exactly when it is turned by an odd number of
      quarter turns. */
  lemma EmbedOnOddQuarterTurns(rotation: int)
    requires rotation % 90 == 0
    ensures UsesEmbed(rotation) <==> (rotation / 90) % 2 == 1
  {
    OddQuarterTurns(rotation);
  }

  /** The source page's size as shown: swapped when its own /Rotate is a
      quarter turn. */
  function EffectiveWidth(src: SourcePage): PosReal
  {
    if JsRem(src.rotation, 180) != 0 then src.height else src.width
  }

  function EffectiveHeight(src: SourcePage): PosReal
  {
    if JsRem(src.rotation, 180) != 0 then src.width else src.height
  }

  /** The scale processPage gives the embedded page, as written: it assumes
      the page is drawn a quarter turn from its container. */
  function EmbedScale(src: SourcePage): (scale: real)
    ensures scale > 0.0
  {
    MinReal(EffectiveWidth(src) / src.height, EffectiveHeight(src) / src.width)
  }

  /** The fit processPage records for the embedded page, as written: the
      drawing is always taken to be turned a quarter from its container, so
      its width is the source's height. Its scale is the code's. */
  function EmbedFit(src: SourcePage): (fit: Fit)
    ensures fit.boxWidth == EffectiveWidth(src) && fit.boxHeight == EffectiveHeight(src)
    ensures fit.drawnWidth == src.height && fit.drawnHeight == src.width
    ensures FitScale(fit) == EmbedScale(src)
  {
    Fit(src.height, src.width, EffectiveWidth(src), EffectiveHeight(src))
  }

  /** An upright source page, turned a quarter, is scaled to fit inside a
      page of its own size. */
  lemma UprightEmbedFits(src: SourcePage)
    requires JsRem(src.rotation, 180) == 0
    ensures var scale := EmbedScale(src);
      src.height * scale <= src.width && src.width * scale <= src.height
  {
    ScaledBound(src.height, EmbedScale(src), src.width);
    ScaledBound(src.width, EmbedScale(src), src.height);
  }

  /** A source page shown sideways (612 x 792 with /Rotate 90) and turned
      a further quarter is drawn at 180 degrees, upright in extent, at
      scale 1: its 792 height does not fit the 612-high container. */
  lemma SidewaysEmbedOverflows()
    ensures var src := SourcePage(612.0, 792.0, 90);
      && UsesEmbed(90)
      && JsRem(TotalRotation(src.rotation, 90), 180) == 0
      && TargetPage(src, 0, 0, 90).content == EmbeddedPage(0, 0, EmbedFit(src), 180)
      && EmbedScale(src) == 1.0
      && src.height * EmbedScale(src) > EffectiveHeight(src)
  {
  }

  /** The scale that fits a drawing of the given size inside a box:
      Math.min(boxWidth / drawnWidth, boxHeight / drawnHeight). */
  function FitScale(fit: Fit): (scale: real)
    ensures scale > 0.0
    ensures fit.drawnWidth * scale <= fit.boxWidth && fit.drawnHeight * scale <= fit.boxHeight
  {
    var scale := MinReal(fit.boxWidth / fit.drawnWidth, fit.boxHeight / fit.drawnHeight);
    ScaledBound(fit.drawnWidth, scale, fit.boxWidth);
    ScaledBound(fit.drawnHeight, scale, fit.boxHeight);
    scale
  }

  /** The fit of the embedded page as it is drawn: its extent is swapped
      only when the total rotation is a quarter turn. */
  function FittedEmbed(src: SourcePage, totalRotation: int): (fit: Fit)
    ensures fit.boxWidth == EffectiveWidth(src) && fit.boxHeight == EffectiveHeight(src)
    ensures JsRem(totalRotation, 180) != 0 ==> fit.drawnWidth == src.height && fit.drawnHeight == src.width
    ensures JsRem(totalRotation, 180) == 0 ==> fit.drawnWidth == src.width && fit.drawnHeight == src.height
  {
    if JsRem(totalRotation, 180) != 0
    then Fit(src.height, src.width, EffectiveWidth(src), EffectiveHeight(src))
    else Fit(src.width, src.height, EffectiveWidth(src), EffectiveHeight(src))
  }

  /** The corrected embed scale. */
  function FittedEmbedScale(src: SourcePage, totalRotation: int): (scale: real)
    ensures scale > 0.0
  {
    FitScale(FittedEmbed(src, totalRotation))
  }

  /** The page drawn at the total rotation fits its container. */
  lemma FittedEmbedFits(src: SourcePage, totalRotation: int)
    ensures var scale := FittedEmbedScale(src, totalRotation);
      var quarter := JsRem(totalRotation, 180) != 0;
      var drawnWidth := (if quarter then src.height else src.width) * scale;
      var drawnHeight := (if quarter then src.width else src.height) * scale;
      drawnWidth <= EffectiveWidth(src) && drawnHeight <= EffectiveHeight(src)
  {
    var fit := FittedEmbed(src, totalRotation);
    assert FittedEmbedScale(src, totalRotation) == FitScale(fit);
  }

  /** For a source page shown upright (/Rotate 0 or 180) and turned a
      quarter either way, the fitted scale is the one the code computes. */
  lemma FittedAgreesWhenUpright(src: SourcePage, rotation: int)
    requires src.rotation in {0, 180} && rotation in {90, 270}
    ensures UsesEmbed(rotation)
    ensures FittedEmbedScale(src, TotalRotation(src.rotation, rotation)) == EmbedScale(src)
  {
  }

  // ----------------------------------------------------------------------
  // Page-number placement

  const FontSize: real := 12.0

  datatype Placement = Placement(x: real, y: real, rotate: int)

  /** The baseline direction of text drawn at `rotate` degrees. */
  function Direction(rotate: int): Point
  {
    if rotate == 90 then Point(0.0, 1.0)
    else if rotate == 180 then Point(-1.0, 0.0)
    else if rotate == 270 then Point(0.0, -1.0)
    else Point(1.0, 0.0)
  }

  /** The point 20 units inside the middle of the edge a viewer sees at the
      bottom of a page turned by `rotation`. */
  function BottomCentre(width: real, height: real, rotation: int): Point
  {
    if rotation == 90 then Point(width - 20.0, height / 2.0)
    else if rotation == 180 then Point(width / 2.0, height - 20.0)
    else if rotation == 270 then Point(20.0, height / 2.0)
    else Point(width / 2.0, 20.0)
  }

  /** drawPageNumber's position table. The label is counter-rotated so it
      reads upright, and its baseline is centred on the bottom edge as the
      page is shown. */
  function PageNumberPlacement(width: real, height: real, rotation: int, textWidth: real): (p: Placement)
    ensures rotation in {90, 180, 270} ==> p.rotate == 360 - rotation
    ensures !(rotation in {90, 180, 270}) ==> p.rotate == 0
  {
    if rotation == 0 then Placement(width / 2.0 - textWidth / 2.0, 20.0, 0)
    else if rotation == 90 then Placement(width - 20.0, height / 2.0 + textWidth / 2.0, 270)
    else if rotation == 180 then Placement(width / 2.0 + textWidth / 2.0, height - 20.0, 180)
    else if rotation == 270 then Placement(20.0, height / 2.0 - textWidth / 2.0, 90)
    else Placement(width / 2.0 - textWidth / 2.0, 20.0, 0)
  }

  /** The label's baseline, drawn in its direction, is centred on the bottom
      edge of the page as it is shown. */
  lemma PlacementCentred(width: real, height: real, rotation: int, textWidth: real)
    ensures var p := PageNumberPlacement(width, height, rotation, textWidth);
      var d := Direction(p.rotate);
      Point(p.x + d.x * textWidth / 2.0, p.y + d.y * textWidth / 2.0) == BottomCentre(width, height, rotation)
  {
  }

  // ----------------------------------------------------------------------
  // The merged document

  /** The pdf-lib calls of the merge. */
  datatype MergeTools = MergeTools(
    // PDFDocument.load(arrayBuffer) followed by getPages()
    load: Bytes -> Result<seq<SourcePage>, JsError>,
    // mergedPdf.embedPng / mergedPdf.embedJpg of a data URL
    embedPng: string -> Result<Bytes, JsError>,
    embedJpg: string -> Result<Bytes, JsError>,
    // what drawText throws for a string the standard font cannot encode
    textError: string -> Option<JsError>,
    // font.widthOfTextAtSize(text, size)
    textWidth: (string, real) -> real,
    // mergedPdf.save()
    save: seq<MergedPage> -> Bytes)

  /** One page of an item's page list: its editor id, the 0-based index of
      the source page and the rotation the user added (0 when absent). */
  datatype PageConfig = PageConfig(id: string, originalIndex: int, rotation: int)

  /** A file to merge, with its page list (all pages when absent) and the
      annotations of its pages by page id ({} when absent). */
  datatype MergeItem = MergeItem(file: Bytes, pages: Option<seq<PageConfig>>, annotations: map<string, seq<Annotation>>)

  /** A drawing of drawnWidth x drawnHeight scaled to fit a box; its scale
      is FitScale. */
  datatype Fit = Fit(drawnWidth: PosReal, drawnHeight: PosReal, boxWidth: PosReal, boxHeight: PosReal)

  /** What an output page shows of a source page: the page itself (copyPages)
      or an embedded copy drawn at a rotation, scaled to a fit (embedPages). */
  datatype PageContent =
    | CopiedPage(item: nat, index: nat)
    | EmbeddedPage(item: nat, index: nat, fit: Fit, rotate: int)

  /** What is drawn over an output page. */
  datatype Mark =
    | PathMark(points: seq<Point>, color: Rgb, borderWidth: real, opacity: real)
    | TextMark(text: string, x: real, y: real, size: real, color: Rgb, rotate: int)
    | ImageMark(image: Bytes, rect: Rect, rotate: int)
    | PageLabel(text: string, x: real, y: real, size: real, rotate: int)

  datatype MergedPage = MergedPage(width: real, height: real, rotation: int, content: PageContent, marks: seq<Mark>)

  /** `new Error` thrown when originalIndex names no source page. */
  const MissingSourcePage: JsError := JsError("TypeError", "Cannot read properties of undefined (reading 'getRotation')", None)

  /** embedPng for a PNG data URL, embedJpg for anything else. */
  function EmbedImage(tools: MergeTools, dataUrl: string): Result<Bytes, JsError>
  {
    if |dataUrl| >= 14 && dataUrl[..14] == "data:image/png" then tools.embedPng(dataUrl) else tools.embedJpg(dataUrl)
  }

  function MapPoints(points: seq<Point>, scale: real, rotation: int, w: real, h: real): (mapped: seq<Point>)
    ensures |mapped| == |points|
    ensures forall i :: 0 <= i < |points| ==>
      EditorPoint(mapped[i], rotation, w, h) == Point(points[i].x * scale, points[i].y * scale)
  {
    seq(|points|, i requires 0 <= i < |points| => MapPoint(points[i], scale, rotation, w, h))
  }

  /** map(lx, ly): scale, then transformPoint. */
  function MapPoint(p: Point, scale: real, rotation: int, w: real, h: real): (q: Point)
    ensures EditorPoint(q, rotation, w, h) == Point(p.x * scale, p.y * scale)
  {
    TransformPoint(p.x * scale, p.y * scale, rotation, w, h)
  }

  /** The corner pdf-lib draws an image from, moved so the image extends
      from the mapped point the way the editor showed it. */
  function ImageAnchor(p: Point, w: real, h: real, rotation: int): Point
  {
    if rotation == 0 || rotation == 270 then Point(p.x, p.y - h)
    else if rotation == 90 || rotation == 180 then Point(p.x - w, p.y)
    else p
  }

  function OptionMarks(m: Option<Mark>): seq<Mark>
  {
    if m.Some? then [m.value] else []
  }

  /** A path: its points mapped, its stroke width scaled, its colour and
      opacity parsed. */
  function PathMarkOf(ann: Annotation, w: real, h: real, rotation: int): Mark
    requires ann.PathAnn?
  {
    var scale := AnnotationScale(ann.meta, rotation, w, h);
    var c := HexToRgb(ann.color, Some(ann.opacity));
    PathMark(MapPoints(ann.points, scale, rotation, w, h), c.rgb, ann.width * scale, c.opacity)
  }

  /** A text: at its mapped point, lowered by its size on an upright page,
      turned with the page. */
  function TextMarkOf(ann: Annotation, w: real, h: real, rotation: int): Mark
    requires ann.TextAnn?
  {
    var scale := AnnotationScale(ann.meta, rotation, w, h);
    var p := TransformPoint(ann.x * scale, ann.y * scale, rotation, w, h);
    var scaledSize := ann.size * scale;
    TextMark(ann.text, p.x, p.y - (if rotation == 0 then scaledSize else 0.0), scaledSize, HexToRgb(ann.color, None).rgb, rotation)
  }

  /** An image: scaled, anchored at its mapped point, turned with the page. */
  function ImageMarkOf(ann: Annotation, image: Bytes, w: real, h: real, rotation: int): Mark
    requires ann.ImageAnn?
  {
    var scale := AnnotationScale(ann.meta, rotation, w, h);
    var anchor := ImageAnchor(TransformPoint(ann.x * scale, ann.y * scale, rotation, w, h), ann.width * scale, ann.height * scale, rotation);
    ImageMark(image, Rect(anchor.x, anchor.y, ann.width * scale, ann.height * scale), rotation)
  }

  /** What one annotation adds to a page of size w x h turned by `rotation`:
      a text the font cannot encode throws; an image that fails to embed is
      skipped; an unknown type draws nothing. */
  function AnnotationMark(tools: MergeTools, ann: Annotation, w: real, h: real, rotation: int): (r: Result<Option<Mark>, JsError>)
    ensures r.Failure? <==> ann.TextAnn? && tools.textError(ann.text).Some?
    ensures r.Success? && r.value.None? <==> ann.OtherAnn? || (ann.ImageAnn? && EmbedImage(tools, ann.dataUrl).Failure?)
  {
    match ann
    case PathAnn(_, _, _, _, _, _) => Success(Some(PathMarkOf(ann, w, h, rotation)))
    case TextAnn(_, _, text, _, _, _) =>
      if tools.textError(text).Some? then Failure(tools.textError(text).value) else Success(Some(TextMarkOf(ann, w, h, rotation)))
    case ImageAnn(_, _, _, _, dataUrl, _) =>
      (match EmbedImage(tools, dataUrl)
       case Failure(_) => Success(None)
       case Success(image) => Success(Some(ImageMarkOf(ann, image, w, h, rotation))))
    case OtherAnn => Success(None)
  }

  /** Whether an annotation leaves a mark when nothing throws. */
  predicate Drawable(tools: MergeTools, ann: Annotation)
  {
    !ann.OtherAnn? && !(ann.ImageAnn? && EmbedImage(tools, ann.dataUrl).Failure?)
  }

  predicate Throws(tools: MergeTools, ann: Annotation)
  {
    ann.TextAnn? && tools.textError(ann.text).Some?
  }

  function DrawableCount(tools: MergeTools, anns: seq<Annotation>): (n: nat)
    ensures n <= |anns|
  {
    if anns == [] then 0
    else DrawableCount(tools, anns[..|anns| - 1]) + (if Drawable(tools, anns[|anns| - 1]) then 1 else 0)
  }

  /** applyAnnotations: the annotations in order; the first that throws ends
      the page, and with it the merge. */
  function AnnotationMarks(tools: MergeTools, anns: seq<Annotation>, w: real, h: real, rotation: int): Result<seq<Mark>, JsError>
  {
    if anns == [] then Success([])
    else
      match AnnotationMarks(tools, anns[..|anns| - 1], w, h, rotation)
      case Failure(e) => Failure(e)
      case Success(marks) =>
        match AnnotationMark(tools, anns[|anns| - 1], w, h, rotation)
        case Failure(e) => Failure(e)
        case Success(m) => Success(marks + OptionMarks(m))
  }

  /** Annotations fail only on a text the font cannot encode; otherwise every
      drawable annotation leaves exactly one mark, a failed image being
      skipped without stopping the others. */
  lemma {:induction false} AnnotationMarksFacts(tools: MergeTools, anns: seq<Annotation>, w: real, h: real, rotation: int)
    ensures AnnotationMarks(tools, anns, w, h, rotation).Success? <==> forall i :: 0 <= i < |anns| ==> !Throws(tools, anns[i])
    ensures AnnotationMarks(tools, anns, w, h, rotation).Success? ==>
      |AnnotationMarks(tools, anns, w, h, rotation).value| == DrawableCount(tools, anns)
  {
    if anns != [] {
      var init := anns[..|anns| - 1];
      AnnotationMarksFacts(tools, init, w, h, rotation);
      assert forall i :: 0 <= i < |init| ==> init[i] == anns[i];
    }
  }

  /** Once a prefix of the annotations throws, the whole list throws the
      same error. */
  lemma {:induction false} MarksFailurePersists(tools: MergeTools, anns: seq<Annotation>, k: nat, w: real, h: real, rotation: int)
    requires k <= |anns|
    requires AnnotationMarks(tools, anns[..k], w, h, rotation).Failure?
    ensures AnnotationMarks(tools, anns, w, h, rotation) == AnnotationMarks(tools, anns[..k], w, h, rotation)
    decreases |anns|
  {
    if k < |anns| {
      var init := anns[..|anns| - 1];
      assert init[..k] == anns[..k];
      MarksFailurePersists(tools, init, k, w, h, rotation);
    } else {
      assert anns[..k] == anns;
    }
  }

  /** The page processPage adds before drawing on it. The copy path keeps
      the page and turns it to the total rotation; the embed path makes a
      page of the source's shown size and draws the source into it at the
      total rotation. */
  function TargetPage(src: SourcePage, itemIndex: nat, index: nat, rotation: int): (page: MergedPage)
    ensures page.marks == []
    ensures page.content.item == itemIndex && page.content.index == index
  {
    var total := TotalRotation(src.rotation, rotation);
    if UsesEmbed(rotation) then
      MergedPage(EffectiveWidth(src), EffectiveHeight(src), 0, EmbeddedPage(itemIndex, index, EmbedFit(src), total), [])
    else
      MergedPage(src.width, src.height, total, CopiedPage(itemIndex, index), [])
  }

  /** Either way the source is shown turned by its own /Rotate plus the
      requested rotation. */
  lemma TargetPageWholeTurns(src: SourcePage, itemIndex: nat, index: nat, rotation: int)
    ensures var page := TargetPage(src, itemIndex, index, rotation);
      var shown := page.rotation + (if page.content.EmbeddedPage? then page.content.rotate else 0);
      (src.rotation + rotation - shown) % 360 == 0
  {
    TotalRotationWholeTurns(src.rotation, rotation);
  }

  /** drawPageNumber on a page of the given size and rotation. */
  function PageNumberLabel(tools: MergeTools, width: real, height: real, rotation: int, number: nat): Mark
  {
    var text := NatToString(number);
    var p := PageNumberPlacement(width, height, rotation, tools.textWidth(text, FontSize));
    PageLabel(text, p.x, p.y, FontSize, p.rotate)
  }

  /** The page number a page carries: the text of its last mark. */
  function LabelOf(page: MergedPage): Option<string>
  {
    if |page.marks| > 0 && page.marks[|page.marks| - 1].PageLabel? then Some(page.marks[|page.marks| - 1].text) else None
  }

  /** processPage: the target page, its annotations, then its number. */
  function PageFor(tools: MergeTools, sourcePages: seq<SourcePage>, itemIndex: nat, config: PageConfig,
                   annotations: map<string, seq<Annotation>>, pageNum: nat): (r: Result<MergedPage, JsError>)
    ensures !(0 <= config.originalIndex < |sourcePages|) ==> r == Failure(MissingSourcePage)
    ensures r.Success? ==> LabelOf(r.value) == Some(NatToString(pageNum))
    ensures r.Success? ==> r.value.content.item == itemIndex && r.value.content.index == config.originalIndex
  {
    if !(0 <= config.originalIndex < |sourcePages|) then Failure(MissingSourcePage)
    else
      var base := TargetPage(sourcePages[config.originalIndex], itemIndex, config.originalIndex, config.rotation);
      var anns := if config.id in annotations then annotations[config.id] else [];
      match AnnotationMarks(tools, anns, base.width, base.height, JsRem(base.rotation, 360))
      case Failure(e) => Failure(e)
      case Success(marks) =>
        Success(base.(marks := marks + [PageNumberLabel(tools, base.width, base.height, base.rotation, pageNum)]))
  }

  /** Every page has the label first + its position. */
  predicate Numbered(pages: seq<MergedPage>, first: nat)
  {
    forall k :: 0 <= k < |pages| ==> LabelOf(pages[k]) == Some(NatToString(first + k))
  }

  /** A page labelled with the next number extends a numbered run. */
  lemma NumberedAppend(pages: seq<MergedPage>, page: MergedPage, first: nat)
    requires Numbered(pages, first) && LabelOf(page) == Some(NatToString(first + |pages|))
    ensures Numbered(pages + [page], first)
  {
  }

  /** Numbered runs that follow each other make one numbered run. */
  lemma NumberedConcat(a: seq<MergedPage>, b: seq<MergedPage>, first: nat)
    requires Numbered(a, first) && Numbered(b, |a| + first)
    ensures Numbered(a + b, first)
  {
    forall k | 0 <= k < |a + b|
      ensures LabelOf((a + b)[k]) == Some(NatToString(first + k))
    {
      if k >= |a| {
        assert (a + b)[k] == b[k - |a|];
      }
    }
  }

  /** A file merged without a page list: each page copied as it is and
      numbered. */
  function CopiedAll(tools: MergeTools, sourcePages: seq<SourcePage>, itemIndex: nat, first: nat): (pages: seq<MergedPage>)
    ensures |pages| == |sourcePages|
    ensures forall k :: 0 <= k < |pages| ==> pages[k].content == CopiedPage(itemIndex, k) && pages[k].rotation == sourcePages[k].rotation
  {
    seq(|sourcePages|, k requires 0 <= k < |sourcePages| =>
      var src := sourcePages[k];
      MergedPage(src.width, src.height, src.rotation, CopiedPage(itemIndex, k),
                 [PageNumberLabel(tools, src.width, src.height, src.rotation, first + k)]))
  }

  /** Copied pages are numbered from `first` in order. */
  lemma CopiedAllNumbered(tools: MergeTools, sourcePages: seq<SourcePage>, itemIndex: nat, first: nat)
    ensures Numbered(CopiedAll(tools, sourcePages, itemIndex, first), first)
  {
    var pages := CopiedAll(tools, sourcePages, itemIndex, first);
    forall k | 0 <= k < |pages|
      ensures LabelOf(pages[k]) == Some(NatToString(first + k))
    {
      var src := sourcePages[k];
      assert pages[k].marks == [PageNumberLabel(tools, src.width, src.height, src.rotation, first + k)];
    }
  }

  /** The pages of an item's page list, in order, numbered from `first`. */
  function ConfigPages(tools: MergeTools, sourcePages: seq<SourcePage>, itemIndex: nat, configs: seq<PageConfig>,
                       annotations: map<string, seq<Annotation>>, first: nat): (r: Result<seq<MergedPage>, JsError>)
    ensures r.Success? ==> |r.value| == |configs|
  {
    if configs == [] then Success([])
    else
      match ConfigPages(tools, sourcePages, itemIndex, configs[..|configs| - 1], annotations, first)
      case Failure(e) => Failure(e)
      case Success(pages) =>
        match PageFor(tools, sourcePages, itemIndex, configs[|configs| - 1], annotations, first + |configs| - 1)
        case Failure(e) => Failure(e)
        case Success(page) => Success(pages + [page])
  }

  /** The pages of a page list are numbered from `first` in order. */
  lemma {:induction false} ConfigPagesNumbered(tools: MergeTools, sourcePages: seq<SourcePage>, itemIndex: nat,
                                               configs: seq<PageConfig>, annotations: map<string, seq<Annotation>>, first: nat)
    ensures var r := ConfigPages(tools, sourcePages, itemIndex, configs, annotations, first);
      r.Success? ==> Numbered(r.value, first)
    decreases |configs|
  {
    var r := ConfigPages(tools, sourcePages, itemIndex, configs, annotations, first);
    if configs != [] && r.Success? {
      var init := configs[..|configs| - 1];
      ConfigPagesNumbered(tools, sourcePages, itemIndex, init, annotations, first);
      var pages := ConfigPages(tools, sourcePages, itemIndex, init, annotations, first).value;
      var page := PageFor(tools, sourcePages, itemIndex, configs[|configs| - 1], annotations, first + |configs| - 1).value;
      NumberedAppend(pages, page, first);
    }
  }

  lemma {:induction false} ConfigFailurePersists(tools: MergeTools, sourcePages: seq<SourcePage>, itemIndex: nat,
                                                 configs: seq<PageConfig>, annotations: map<string, seq<Annotation>>, first: nat, k: nat)
    requires k <= |configs|
    requires ConfigPages(tools, sourcePages, itemIndex, configs[..k], annotations, first).Failure?
    ensures ConfigPages(tools, sourcePages, itemIndex, configs, annotations, first)
         == ConfigPages(tools, sourcePages, itemIndex, configs[..k], annotations, first)
    decreases |configs|
  {
    if k < |configs| {
      var init := configs[..|configs| - 1];
      assert init[..k] == configs[..k];
      ConfigFailurePersists(tools, sourcePages, itemIndex, init, annotations, first, k);
    } else {
      assert configs[..k] == configs;
    }
  }

  /** One more page config: its page, numbered after the pages so far. */
  lemma ConfigPagesStep(tools: MergeTools, sourcePages: seq<SourcePage>, itemIndex: nat, configs: seq<PageConfig>,
                        annotations: map<string, seq<Annotation>>, first: nat, k: nat, pages: seq<MergedPage>)
    requires k < |configs|
    requires ConfigPages(tools, sourcePages, itemIndex, configs[..k], annotations, first) == Success(pages)
    ensures var step := PageFor(tools, sourcePages, itemIndex, configs[k], annotations, first + k);
      ConfigPages(tools, sourcePages, itemIndex, configs[..k + 1], annotations, first)
      == if step.Failure? then Failure(step.error) else Success(pages + [step.value])
  {
    assert configs[..k + 1][..k] == configs[..k];
  }

  /** The number of pages an item contributes once loaded. */
  function ItemPageCount(tools: MergeTools, item: MergeItem): nat
  {
    match tools.load(item.file)
    case Failure(_) => 0
    case Success(sourcePages) => if item.pages.None? then |sourcePages| else |item.pages.value|
  }

  /** One item of the merge, numbered from `first`. */
  function ItemPages(tools: MergeTools, item: MergeItem, itemIndex: nat, first: nat): (r: Result<seq<MergedPage>, JsError>)
    ensures r.Success? ==> |r.value| == ItemPageCount(tools, item)
    ensures tools.load(item.file).Failure? ==> r.Failure?
  {
    match tools.load(item.file)
    case Failure(e) => Failure(e)
    case Success(sourcePages) =>
      if item.pages.None? then Success(CopiedAll(tools, sourcePages, itemIndex, first))
      else ConfigPages(tools, sourcePages, itemIndex, item.pages.value, item.annotations, first)
  }

  /** An item's pages are numbered from `first` in order. */
  lemma ItemPagesNumbered(tools: MergeTools, item: MergeItem, itemIndex: nat, first: nat)
    ensures var r := ItemPages(tools, item, itemIndex, first);
      r.Success? ==> Numbered(r.value, first)
  {
    if tools.load(item.file).Success? {
      var sourcePages := tools.load(item.file).value;
      if item.pages.None? {
        CopiedAllNumbered(tools, sourcePages, itemIndex, first);
      } else {
        ConfigPagesNumbered(tools, sourcePages, itemIndex, item.pages.value, item.annotations, first);
      }
    }
  }

  function TotalPageCount(tools: MergeTools, items: seq<MergeItem>): nat
  {
    if items == [] then 0 else TotalPageCount(tools, items[..|items| - 1]) + ItemPageCount(tools, items[|items| - 1])
  }

  /** mergePDFs: the items in order, pages numbered 1..N across all of them;
      a file that fails to load fails the whole merge. */
  function Merged(tools: MergeTools, items: seq<MergeItem>): (r: Result<seq<MergedPage>, JsError>)
    ensures r.Success? ==> |r.value| == TotalPageCount(tools, items)
    ensures (exists i :: 0 <= i < |items| && tools.load(items[i].file).Failure?) ==> r.Failure?
  {
    if items == [] then Success([])
    else
      var init := items[..|items| - 1];
      match Merged(tools, init)
      case Failure(e) => Failure(e)
      case Success(pages) =>
        assert forall i :: 0 <= i < |init| ==> init[i] == items[i];
        match ItemPages(tools, items[|items| - 1], |items| - 1, |pages| + 1)
        case Failure(e) => Failure(e)
        case Success(more) => Success(pages + more)
  }

  lemma {:induction false} MergedFailurePersists(tools: MergeTools, items: seq<MergeItem>, k: nat)
    requires k <= |items|
    requires Merged(tools, items[..k]).Failure?
    ensures Merged(tools, items) == Merged(tools, items[..k])
    decreases |items|
  {
    if k < |items| {
      var init := items[..|items| - 1];
      assert init[..k] == items[..k];
      MergedFailurePersists(tools, init, k);
    } else {
      assert items[..k] == items;
    }
  }

  /** One more item: its pages, numbered after the pages so far. */
  lemma MergedStep(tools: MergeTools, items: seq<MergeItem>, i: nat, pages: seq<MergedPage>)
    requires i < |items|
    requires Merged(tools, items[..i]) == Success(pages)
    ensures var step := ItemPages(tools, items[i], i, |pages| + 1);
      Merged(tools, items[..i + 1]) == if step.Failure? then Failure(step.error) else Success(pages + step.value)
  {
    assert items[..i + 1][..i] == items[..i];
  }

  /** One item of the merge loop: its error is the error of the whole
      merge; otherwise the pages so far grow by its pages. */
  lemma MergedAdvance(tools: MergeTools, items: seq<MergeItem>, i: nat, pages: seq<MergedPage>,
                      err: Option<JsError>, after: seq<MergedPage>)
    requires i < |items| && Merged(tools, items[..i]) == Success(pages)
    requires var r := ItemPages(tools, items[i], i, |pages| + 1);
      && (r.Failure? ==> err == Some(r.error))
      && (r.Success? ==> err.None? && after == pages + r.value)
    ensures err.Some? ==> Merged(tools, items) == Failure(err.value)
    ensures err.None? ==> Merged(tools, items[..i + 1]) == Success(after)
  {
    MergedStep(tools, items, i, pages);
    if err.Some? {
      MergedFailurePersists(tools, items, i + 1);
    }
  }

  /** The merge numbers its pages 1..N across all items. */
  lemma {:induction false} MergedNumbered(tools: MergeTools, items: seq<MergeItem>)
    ensures var r := Merged(tools, items);
      r.Success? ==> Numbered(r.value, 1)
    decreases |items|
  {
    if items != [] && Merged(tools, items).Success? {
      var n := |items| - 1;
      var init := items[..n];
      assert items[..n + 1] == items;
      MergedNumbered(tools, init);
      var pages := Merged(tools, init).value;
      MergedStep(tools, items, n, pages);
      var more := ItemPages(tools, items[n], n, |pages| + 1);
      ItemPagesNumbered(tools, items[n], n, |pages| + 1);
      NumberedConcat(pages, more.value, 1);
    }
  }

  // ----------------------------------------------------------------------
  // The merge, step by step

  /** The pages with `marks` drawn on the last one. */
  function WithMarks(pages: seq<MergedPage>, marks: seq<Mark>): (r: seq<MergedPage>)
    requires |pages| > 0
    ensures |r| == |pages|
    ensures r[..|r| - 1] == pages[..|pages| - 1]
    ensures r[|r| - 1] == pages[|pages| - 1].(marks := pages[|pages| - 1].marks + marks)
  {
    var last := pages[|pages| - 1];
    pages[..|pages| - 1] + [last.(marks := last.marks + marks)]
  }

  lemma WithNoMarks(pages: seq<MergedPage>)
    requires |pages| > 0
    ensures WithMarks(pages, []) == pages
  {
    var last := pages[|pages| - 1];
    assert last.(marks := last.marks + []) == last;
    assert pages[..|pages| - 1] + [last] == pages;
  }

  /** Drawing on a page just added. */
  lemma WithMarksOnNewPage(pages: seq<MergedPage>, page: MergedPage, marks: seq<Mark>)
    requires page.marks == []
    ensures WithMarks(pages + [page], marks) == pages + [page.(marks := marks)]
  {
    assert (pages + [page])[..|pages|] == pages;
    assert page.marks + marks == marks;
  }

  lemma WithMarksAppend(pages: seq<MergedPage>, a: seq<Mark>, b: seq<Mark>)
    requires |pages| > 0
    ensures WithMarks(WithMarks(pages, a), b) == WithMarks(pages, a + b)
  {
    var last := pages[|pages| - 1];
    assert last.marks + a + b == last.marks + (a + b);
    assert WithMarks(pages, a)[..|pages| - 1] == pages[..|pages| - 1];
  }

  /** The pdf-lib document the merge builds. */
  class MergedDocument {
    var pages: seq<MergedPage>

    constructor ()
      ensures pages == []
    {
      pages := [];
    }

    /** addPage */
    method AddPage(page: MergedPage)
      modifies this
      ensures pages == old(pages) + [page]
    {
      pages := pages + [page];
    }

    /** drawSvgPath, drawText or drawImage on the page added last. */
    method Draw(mark: Mark)
      requires |pages| > 0
      modifies this
      ensures pages == WithMarks(old(pages), [mark])
    {
      var last := pages[|pages| - 1];
      pages := pages[..|pages| - 1] + [last.(marks := last.marks + [mark])];
    }
  }

  /** The Map from data URL to embedded image shared by the whole merge. */
  class ImageCache {
    var entries: map<string, Bytes>

    constructor ()
      ensures entries == map[]
    {
      entries := map[];
    }

    /** Every cached image is what embedding its data URL gives. */
    predicate Agrees(tools: MergeTools)
      reads this
    {
      forall url :: url in entries ==> EmbedImage(tools, url) == Success(entries[url])
    }

    method Get(url: string) returns (image: Option<Bytes>)
      ensures image == if url in entries then Some(entries[url]) else None
    {
      image := if url in entries then Some(entries[url]) else None;
    }

    method Set(url: string, image: Bytes)
      modifies this
      ensures entries == old(entries)[url := image]
    {
      entries := entries[url := image];
    }
  }

  /** One annotation of applyAnnotations. The cache only saves embedding
      again: what is drawn is what embedding would give. */
  method DrawAnnotation(doc: MergedDocument, ann: Annotation, tools: MergeTools, cache: ImageCache,
                        w: real, h: real, rotation: int) returns (err: Option<JsError>)
    requires |doc.pages| > 0 && cache.Agrees(tools)
    modifies doc, cache
    ensures cache.Agrees(tools)
    ensures match AnnotationMark(tools, ann, w, h, rotation)
      case Failure(e) => err == Some(e)
      case Success(m) => err.None? && doc.pages == WithMarks(old(doc.pages), OptionMarks(m))
  {
    match ann
    case PathAnn(_, _, _, _, _, _) =>
      doc.Draw(PathMarkOf(ann, w, h, rotation));
      return None;
    case TextAnn(_, _, text, _, _, _) =>
      if tools.textError(text).Some? {
        return tools.textError(text);
      }
      doc.Draw(TextMarkOf(ann, w, h, rotation));
      return None;
    case ImageAnn(_, _, _, _, dataUrl, _) =>
      var image := cache.Get(dataUrl);
      if image.None? {
        var embedded := EmbedImage(tools, dataUrl);
        if embedded.Failure? {
          // console.warn, and on to the next annotation
          WithNoMarks(doc.pages);
          return None;
        }
        image := Some(embedded.value);
        cache.Set(dataUrl, embedded.value);
      }
      assert EmbedImage(tools, dataUrl) == Success(image.value);
      doc.Draw(ImageMarkOf(ann, image.value, w, h, rotation));
      return None;
    case OtherAnn =>
      WithNoMarks(doc.pages);
      return None;
  }

  /** applyAnnotations on the page added last. */
  method ApplyAnnotations(doc: MergedDocument, anns: seq<Annotation>, tools: MergeTools, cache: ImageCache)
    returns (err: Option<JsError>)
    requires |doc.pages| > 0 && cache.Agrees(tools)
    modifies doc, cache
    ensures cache.Agrees(tools)
    ensures var last := old(doc.pages)[|old(doc.pages)| - 1];
      match AnnotationMarks(tools, anns, last.width, last.height, JsRem(last.rotation, 360))
      case Failure(e) => err == Some(e)
      case Success(marks) => err.None? && doc.pages == WithMarks(old(doc.pages), marks)
  {
    if |anns| == 0 {
      WithNoMarks(doc.pages);
      return None;
    }
    var page := doc.pages[|doc.pages| - 1];
    var rotation := JsRem(page.rotation, 360);
    ghost var before := doc.pages;
    ghost var drawn: seq<Mark> := [];
    WithNoMarks(before);
    var k := 0;
    while k < |anns|
      invariant 0 <= k <= |anns|
      invariant cache.Agrees(tools)
      invariant AnnotationMarks(tools, anns[..k], page.width, page.height, rotation) == Success(drawn)
      invariant doc.pages == WithMarks(before, drawn)
    {
      assert anns[..k + 1][..k] == anns[..k];
      err := DrawAnnotation(doc, anns[k], tools, cache, page.width, page.height, rotation);
      if err.Some? {
        MarksFailurePersists(tools, anns, k + 1, page.width, page.height, rotation);
        return;
      }
      WithMarksAppend(before, drawn, OptionMarks(AnnotationMark(tools, anns[k], page.width, page.height, rotation).value));
      drawn := drawn + OptionMarks(AnnotationMark(tools, anns[k], page.width, page.height, rotation).value);
      k := k + 1;
    }
    assert anns[..k] == anns;
    return None;
  }

  /** drawPageNumber on the page added last. */
  method DrawPageNumber(doc: MergedDocument, number: nat, tools: MergeTools)
    requires |doc.pages| > 0
    modifies doc
    ensures var last := old(doc.pages)[|old(doc.pages)| - 1];
      doc.pages == WithMarks(old(doc.pages), [PageNumberLabel(tools, last.width, last.height, last.rotation, number)])
  {
    var page := doc.pages[|doc.pages| - 1];
    var text := NatToString(number);
    var textWidth := tools.textWidth(text, FontSize);
    var placement := PageNumberPlacement(page.width, page.height, page.rotation, textWidth);
    doc.Draw(PageLabel(text, placement.x, placement.y, FontSize, placement.rotate));
  }

  /** The first half of processPage: the page turned by a quarter turn
      embeds the source drawn rotated on a page of the turned size, any
      other page is a copy carrying the rotation. */
  method AddTargetPage(doc: MergedDocument, sourcePage: SourcePage, itemIndex: nat, originalIndex: nat, rotation: int)
    returns (target: MergedPage)
    modifies doc
    ensures target == TargetPage(sourcePage, itemIndex, originalIndex, rotation)
    ensures doc.pages == old(doc.pages) + [target]
  {
    var addedRotation := AddedRotation(rotation);
    var totalRotation := TotalRotation(sourcePage.rotation, rotation);
    if JsRem(addedRotation, 180) != 0 {
      var fit := Fit(sourcePage.height, sourcePage.width, EffectiveWidth(sourcePage), EffectiveHeight(sourcePage));
      target := MergedPage(EffectiveWidth(sourcePage), EffectiveHeight(sourcePage), 0,
                           EmbeddedPage(itemIndex, originalIndex, fit, totalRotation), []);
    } else {
      target := MergedPage(sourcePage.width, sourcePage.height, totalRotation, CopiedPage(itemIndex, originalIndex), []);
    }
    doc.AddPage(target);
  }

  /** processPage */
  method ProcessPage(doc: MergedDocument, config: PageConfig, sourcePages: seq<SourcePage>, itemIndex: nat,
                     annotations: map<string, seq<Annotation>>, tools: MergeTools, cache: ImageCache, pageNum: nat)
    returns (err: Option<JsError>)
    requires cache.Agrees(tools)
    modifies doc, cache
    ensures cache.Agrees(tools)
    ensures var r := PageFor(tools, sourcePages, itemIndex, config, annotations, pageNum);
      && (r.Failure? ==> err == Some(r.error))
      && (r.Success? ==> err.None? && doc.pages == old(doc.pages) + [r.value])
  {
    if !(0 <= config.originalIndex < |sourcePages|) {
      return Some(MissingSourcePage);
    }
    var target := AddTargetPage(doc, sourcePages[config.originalIndex], itemIndex, config.originalIndex, config.rotation);
    ghost var added := doc.pages;
    var marks: seq<Mark> := [];
    if config.id in annotations {
      err := ApplyAnnotations(doc, annotations[config.id], tools, cache);
      if err.Some? {
        return;
      }
      marks := AnnotationMarks(tools, annotations[config.id], target.width, target.height, JsRem(target.rotation, 360)).value;
    } else {
      WithNoMarks(added);
    }
    DrawPageNumber(doc, pageNum, tools);
    var numberMark := PageNumberLabel(tools, target.width, target.height, target.rotation, pageNum);
    WithMarksAppend(added, marks, [numberMark]);
    WithMarksOnNewPage(old(doc.pages), target, marks + [numberMark]);
    assert PageFor(tools, sourcePages, itemIndex, config, annotations, pageNum) == Success(target.(marks := marks + [numberMark]));
    return None;
  }

  /** Adding the k-th source page and numbering it extends the copied
      pages by one. */
  lemma CopiedStep(tools: MergeTools, sourcePages: seq<SourcePage>, itemIndex: nat, first: nat, k: nat,
                   prev: seq<MergedPage>)
    requires k < |sourcePages|
    ensures var all := CopiedAll(tools, sourcePages, itemIndex, first);
      var src := sourcePages[k];
      var page := MergedPage(src.width, src.height, src.rotation, CopiedPage(itemIndex, k), []);
      && WithMarks(prev + [page], [PageNumberLabel(tools, src.width, src.height, src.rotation, first + k)]) == prev + [all[k]]
      && all[..k + 1] == all[..k] + [all[k]]
  {
    var src := sourcePages[k];
    var page := MergedPage(src.width, src.height, src.rotation, CopiedPage(itemIndex, k), []);
    WithMarksOnNewPage(prev, page, [PageNumberLabel(tools, src.width, src.height, src.rotation, first + k)]);
  }

  /** The `!pages` branch: copy every page and number it. */
  method CopyAllPages(doc: MergedDocument, sourcePages: seq<SourcePage>, itemIndex: nat, tools: MergeTools, pageCount: nat)
    returns (count: nat)
    modifies doc
    ensures doc.pages == old(doc.pages) + CopiedAll(tools, sourcePages, itemIndex, pageCount + 1)
    ensures count == pageCount + |sourcePages|
  {
    ghost var all := CopiedAll(tools, sourcePages, itemIndex, pageCount + 1);
    count := pageCount;
    var k := 0;
    while k < |sourcePages|
      invariant 0 <= k <= |sourcePages|
      invariant count == pageCount + k
      invariant doc.pages == old(doc.pages) + all[..k]
    {
      var src := sourcePages[k];
      var page := MergedPage(src.width, src.height, src.rotation, CopiedPage(itemIndex, k), []);
      ghost var prev := doc.pages;
      doc.AddPage(page);
      count := count + 1;
      DrawPageNumber(doc, count, tools);
      CopiedStep(tools, sourcePages, itemIndex, pageCount + 1, k, prev);
      k := k + 1;
    }
    assert all[..k] == all;
  }

  /** The k-th page of an item's page list, numbered first + k: either it
      is added and the pages so far grow by it, or its error is the error of
      the whole page list. */
  method ProcessConfigAt(doc: MergedDocument, sourcePages: seq<SourcePage>, itemIndex: nat, configs: seq<PageConfig>,
                         annotations: map<string, seq<Annotation>>, tools: MergeTools, cache: ImageCache,
                         first: nat, k: nat, ghost start: seq<MergedPage>, ghost pages: seq<MergedPage>)
    returns (err: Option<JsError>, ghost page: Result<MergedPage, JsError>)
    requires k < |configs| && cache.Agrees(tools)
    requires ConfigPages(tools, sourcePages, itemIndex, configs[..k], annotations, first) == Success(pages)
    requires doc.pages == start + pages
    modifies doc, cache
    ensures cache.Agrees(tools)
    ensures err.Some? ==> ConfigPages(tools, sourcePages, itemIndex, configs, annotations, first) == Failure(err.value)
    ensures err.None? ==>
      && page.Success?
      && ConfigPages(tools, sourcePages, itemIndex, configs[..k + 1], annotations, first) == Success(pages + [page.value])
      && doc.pages == start + (pages + [page.value])
  {
    hide PageFor;
    err := ProcessPage(doc, configs[k], sourcePages, itemIndex, annotations, tools, cache, first + k);
    ConfigPagesStep(tools, sourcePages, itemIndex, configs, annotations, first, k, pages);
    page := PageFor(tools, sourcePages, itemIndex, configs[k], annotations, first + k);
    if err.Some? {
      ConfigFailurePersists(tools, sourcePages, itemIndex, configs, annotations, first, k + 1);
    } else {
      assert doc.pages == (start + pages) + [page.value];
    }
  }

  /** The page list of one item, with the running page count. */
  method ProcessConfigs(doc: MergedDocument, sourcePages: seq<SourcePage>, itemIndex: nat, configs: seq<PageConfig>,
                        annotations: map<string, seq<Annotation>>, tools: MergeTools, cache: ImageCache, pageCount: nat)
    returns (err: Option<JsError>, count: nat)
    requires cache.Agrees(tools)
    modifies doc, cache
    ensures cache.Agrees(tools)
    ensures var r := ConfigPages(tools, sourcePages, itemIndex, configs, annotations, pageCount + 1);
      && (r.Failure? ==> err == Some(r.error))
      && (r.Success? ==> err.None? && doc.pages == old(doc.pages) + r.value && count == pageCount + |configs|)
  {
    hide PageFor;
    ghost var start := doc.pages;
    ghost var added: seq<MergedPage> := [];
    count := pageCount;
    var k := 0;
    while k < |configs|
      invariant 0 <= k <= |configs|
      invariant cache.Agrees(tools)
      invariant count == pageCount + k
      invariant ConfigPages(tools, sourcePages, itemIndex, configs[..k], annotations, pageCount + 1) == Success(added)
      invariant doc.pages == start + added
    {
      count := count + 1;
      ghost var page;
      err, page := ProcessConfigAt(doc, sourcePages, itemIndex, configs, annotations, tools, cache, pageCount + 1, k, start, added);
      if err.Some? {
        return;
      }
      added := added + [page.value];
      k := k + 1;
    }
    assert configs[..k] == configs;
    return None, count;
  }

  /** One item of mergePDFs' loop. */
  method AddItem(doc: MergedDocument, item: MergeItem, itemIndex: nat, tools: MergeTools, cache: ImageCache, pageCount: nat)
    returns (err: Option<JsError>, count: nat)
    requires cache.Agrees(tools)
    modifies doc, cache
    ensures cache.Agrees(tools)
    ensures var r := ItemPages(tools, item, itemIndex, pageCount + 1);
      && (r.Failure? ==> err == Some(r.error))
      && (r.Success? ==> err.None? && doc.pages == old(doc.pages) + r.value && count == pageCount + |r.value|)
  {
    var loaded := tools.load(item.file);
    if loaded.Failure? {
      return Some(loaded.error), pageCount;
    }
    if item.pages.None? {
      count := CopyAllPages(doc, loaded.value, itemIndex, tools, pageCount);
      return None, count;
    }
    err, count := ProcessConfigs(doc, loaded.value, itemIndex, item.pages.value, item.annotations, tools, cache, pageCount);
  }

  /** mergePDFs */
  method MergePdfs(items: seq<MergeItem>, tools: MergeTools) returns (r: Result<Bytes, JsError>)
    ensures Merged(tools, items).Success? ==> r == Success(tools.save(Merged(tools, items).value))
    ensures Merged(tools, items).Failure? ==> r == Failure(Merged(tools, items).error)
  {
    var mergedPdf := new MergedDocument();
    var imageCache := new ImageCache();
    var pageCount := 0;
    var i := 0;
    while i < |items|
      invariant 0 <= i <= |items|
      invariant imageCache.Agrees(tools)
      invariant Merged(tools, items[..i]) == Success(mergedPdf.pages)
      invariant pageCount == |mergedPdf.pages|
    {
      ghost var pages := mergedPdf.pages;
      var err;
      err, pageCount := AddItem(mergedPdf, items[i], i, tools, imageCache, pageCount);
      MergedAdvance(tools, items, i, pages, err, mergedPdf.pages);
      if err.Some? {
        return Failure(err.value);
      }
      i := i + 1;
    }
    assert items[..i] == items;
    return Success(tools.save(mergedPdf.pages));
  }
}
