/** calculateCompressionParams: turns a target reduction percentage and the
    document analysis into a strategy, a rendering resolution and a JPEG
    quality. */
module TargetEngine {
  import opened Wrappers
  import opened JsNumber
  import opened AnalyzePdf

  /** The strategy names compressPDF dispatches on; any other string takes
      the default branch. */
  datatype Strategy = Lossless | Hybrid | Aggressive | OtherStrategy(name: OtherName)

  /** A strategy string that is none of the three named ones. */
  type OtherName = s: string | s != "lossless" && s != "hybrid" && s != "aggressive" witness ""

  /** A rendering resolution in dots per inch. */
  type Dpi = d: int | d > 0 witness 72

  /** The parameter record. predictedSize is absent from the lossless
      short-circuit; targetReduction is attached by the dialog that asks for
      compression and is absent (undefined) when nobody attached it. */
  datatype CompressionParams = CompressionParams(
    strategy: Strategy,
    dpi: Dpi,
    jpegQuality: real,
    predictedSize: Option<int>,
    targetReduction: Option<int>)

  /** The resolution floor of a quality floor name. */
  function MinDpi(qualityFloor: string): (d: Dpi)
    ensures 96 <= d <= 150
  {
    if qualityFloor == "aggressive" then 96 else if qualityFloor == "balanced" then 120 else 150
  }

  /** The JPEG quality floor of a quality floor name. */
  function MinQuality(qualityFloor: string): (q: real)
    ensures 0.6 <= q <= 0.85
  {
    if qualityFloor == "aggressive" then 0.6 else if qualityFloor == "balanced" then 0.7 else 0.85
  }

  /** The unrounded resolution: from 300 down to the floor, reached at two
      thirds of the way (intensity * 1.5 == 1). */
  function RawDpi(targetReduction: int, qualityFloor: string): (d: real)
    ensures d >= MinDpi(qualityFloor) as real
  {
    var minDpi := MinDpi(qualityFloor) as real;
    var intensity := targetReduction as real / 100.0;
    MaxReal(minDpi, 300.0 - (300.0 - minDpi) * intensity * 1.5)
  }

  /** The unrounded quality: from 1.0 down to the floor. */
  function RawQuality(targetReduction: int, qualityFloor: string): (q: real)
    ensures q >= MinQuality(qualityFloor)
  {
    var minQuality := MinQuality(qualityFloor);
    var intensity := targetReduction as real / 100.0;
    MaxReal(minQuality, 1.0 - (1.0 - minQuality) * intensity)
  }

  /** Documents that are mostly text and a modest target stay lossless. */
  predicate StaysLossless(analysis: Analysis, targetReduction: int)
  {
    analysis.imageRatio < 0.2 && targetReduction < 30
  }

  function CalculateCompressionParams(analysis: Analysis, targetReduction: int, qualityFloor: string): (r: CompressionParams)
    ensures r.strategy == Lossless <==> StaysLossless(analysis, targetReduction)
    ensures r.strategy == Lossless ==> r.dpi == 300 && r.jpegQuality == 1.0 && r.predictedSize.None?
    ensures r.strategy != Lossless ==>
      && (r.strategy == Aggressive <==> analysis.isScanned || (analysis.imageRatio > 0.8 && targetReduction > 70))
      && (r.strategy == Hybrid <==> !(analysis.isScanned || (analysis.imageRatio > 0.8 && targetReduction > 70)))
      && MinDpi(qualityFloor) <= r.dpi
      && MinQuality(qualityFloor) <= r.jpegQuality
      && r.predictedSize.Some?
      && r.predictedSize.value as real - 0.5 <= analysis.fileSize as real * (1.0 - targetReduction as real * 0.008) < r.predictedSize.value as real + 0.5
    ensures r.targetReduction.None?
  {
    if StaysLossless(analysis, targetReduction) then
      CompressionParams(Lossless, 300, 1.0, None, None)
    else
      var intensity := targetReduction as real / 100.0;
      var strategy := if analysis.isScanned || (analysis.imageRatio > 0.8 && intensity > 0.7) then Aggressive else Hybrid;
      var quality := RawQuality(targetReduction, qualityFloor);
      var sizeFactor := 1.0 - intensity * 0.8;
      assert sizeFactor == 1.0 - targetReduction as real * 0.008;
      var predicted := analysis.fileSize as real * sizeFactor;
      assert predicted == analysis.fileSize as real * (1.0 - targetReduction as real * 0.008);
      ToFixed2OfCents(Cents(MinQuality(qualityFloor)));
      ToFixed2Monotone(MinQuality(qualityFloor), quality);
      CompressionParams(
        strategy,
        Round(RawDpi(targetReduction, qualityFloor)),
        ToFixed2(quality),
        Some(Round(predicted)),
        None)
  }

  /** The whole number of hundredths in a quality floor. */
  function Cents(q: real): (k: nat)
    requires q == 0.6 || q == 0.7 || q == 0.85
    ensures k as real / 100.0 == q
  {
    if q == 0.6 then 60 else if q == 0.7 then 70 else 85
  }

  // ----------------------------------------------------------------------
  // Properties

  lemma RawAtMost(targetReduction: int, qualityFloor: string)
    requires targetReduction >= 0
    ensures RawDpi(targetReduction, qualityFloor) <= 300.0
    ensures RawQuality(targetReduction, qualityFloor) <= 1.0
  {
    var intensity := targetReduction as real / 100.0;
    assert (300.0 - MinDpi(qualityFloor) as real) * intensity * 1.5 >= 0.0;
    assert (1.0 - MinQuality(qualityFloor)) * intensity >= 0.0;
  }

  lemma RawMonotone(t1: int, t2: int, qualityFloor: string)
    requires t1 <= t2
    ensures RawDpi(t2, qualityFloor) <= RawDpi(t1, qualityFloor)
    ensures RawQuality(t2, qualityFloor) <= RawQuality(t1, qualityFloor)
  {
    var dpiSpan := 300.0 - MinDpi(qualityFloor) as real;
    var qualitySpan := 1.0 - MinQuality(qualityFloor);
    assert dpiSpan * (t1 as real / 100.0) <= dpiSpan * (t2 as real / 100.0);
    assert qualitySpan * (t1 as real / 100.0) <= qualitySpan * (t2 as real / 100.0);
  }

  /** Outside the lossless case with a non-negative target, the parameters
      are at most the lossless ones: 300 dpi and quality 1.0. */
  lemma RoundedAtMost(targetReduction: int, qualityFloor: string)
    requires targetReduction >= 0
    ensures Round(RawDpi(targetReduction, qualityFloor)) <= 300
    ensures ToFixed2(RawQuality(targetReduction, qualityFloor)) <= 1.0
  {
    RawAtMost(targetReduction, qualityFloor);
    RoundMonotone(RawDpi(targetReduction, qualityFloor), 300.0);
    RoundOfInteger(300);
    ToFixed2Monotone(RawQuality(targetReduction, qualityFloor), 1.0);
    ToFixed2OfCents(100);
  }

  /** For a target between 0 and 100 the parameters stay between the floor
      and the maximum: 300 dpi and quality 1.0. */
  lemma ParamsWithinBounds(analysis: Analysis, targetReduction: int, qualityFloor: string)
    requires 0 <= targetReduction <= 100
    ensures var r := CalculateCompressionParams(analysis, targetReduction, qualityFloor);
      && MinDpi(qualityFloor) <= r.dpi <= 300
      && MinQuality(qualityFloor) <= r.jpegQuality <= 1.0
  {
    RoundedAtMost(targetReduction, qualityFloor);
  }

  /** A larger target never yields a higher resolution or a higher quality,
      whatever the analysis and the floor, across the lossless boundary too. */
  lemma MonotoneInTarget(analysis: Analysis, t1: int, t2: int, qualityFloor: string)
    requires t1 <= t2
    ensures var r1 := CalculateCompressionParams(analysis, t1, qualityFloor);
      var r2 := CalculateCompressionParams(analysis, t2, qualityFloor);
      r2.dpi <= r1.dpi && r2.jpegQuality <= r1.jpegQuality
  {
    if StaysLossless(analysis, t1) && !StaysLossless(analysis, t2) {
      // the same imageRatio is below 0.2, so the second target is at least 30
      RoundedAtMost(t2, qualityFloor);
    } else if !StaysLossless(analysis, t1) && !StaysLossless(analysis, t2) {
      RawMonotone(t1, t2, qualityFloor);
      RoundMonotone(RawDpi(t2, qualityFloor), RawDpi(t1, qualityFloor));
      ToFixed2Monotone(RawQuality(t2, qualityFloor), RawQuality(t1, qualityFloor));
    }
  }

  /** Outside the lossless case the resolution sits on its floor exactly
      from a target of 67 on (intensity * 1.5 reaches 1 at 66.7). */
  lemma MinDpiThreshold(analysis: Analysis, targetReduction: int, qualityFloor: string)
    requires !StaysLossless(analysis, targetReduction)
    ensures CalculateCompressionParams(analysis, targetReduction, qualityFloor).dpi == MinDpi(qualityFloor)
        <==> targetReduction >= 67
  {
    var minDpi := MinDpi(qualityFloor) as real;
    var t := targetReduction as real;
    var drop := (300.0 - minDpi) * (t / 100.0) * 1.5;
    if targetReduction >= 67 {
      assert drop >= (300.0 - minDpi) * 1.005;
      assert RawDpi(targetReduction, qualityFloor) == minDpi;
      RoundOfInteger(MinDpi(qualityFloor));
    } else {
      assert drop <= (300.0 - minDpi) * 0.99;
      assert RawDpi(targetReduction, qualityFloor) >= minDpi + 1.5;
      assert Round(RawDpi(targetReduction, qualityFloor)) > MinDpi(qualityFloor);
    }
  }

  /** A stricter floor name never yields a lower resolution or quality for
      a non-negative target: aggressive <= balanced <= any other name. */
  lemma FloorOrdering(analysis: Analysis, targetReduction: int, qualityFloor: string)
    requires targetReduction >= 0
    ensures var a := CalculateCompressionParams(analysis, targetReduction, "aggressive");
      var b := CalculateCompressionParams(analysis, targetReduction, "balanced");
      var c := CalculateCompressionParams(analysis, targetReduction, qualityFloor);
      && a.dpi <= b.dpi && a.jpegQuality <= b.jpegQuality
      && (qualityFloor != "aggressive" ==> b.dpi <= c.dpi && b.jpegQuality <= c.jpegQuality)
  {
    var intensity := targetReduction as real / 100.0;
    if !StaysLossless(analysis, targetReduction) {
      assert 204.0 * intensity * 1.5 >= 180.0 * intensity * 1.5 >= 150.0 * intensity * 1.5;
      assert 0.4 * intensity >= 0.3 * intensity >= 0.15 * intensity;
      RoundMonotone(RawDpi(targetReduction, "aggressive"), RawDpi(targetReduction, "balanced"));
      ToFixed2Monotone(RawQuality(targetReduction, "aggressive"), RawQuality(targetReduction, "balanced"));
      if qualityFloor != "aggressive" {
        RoundMonotone(RawDpi(targetReduction, "balanced"), RawDpi(targetReduction, qualityFloor));
        ToFixed2Monotone(RawQuality(targetReduction, "balanced"), RawQuality(targetReduction, qualityFloor));
      }
    }
  }

  /** A scanned document at an 80% target with the aggressive floor is fully
      rasterised at 96 dpi and quality 0.68, predicted at 36% of its size. */
  lemma ScannedAtEighty(analysis: Analysis)
    requires analysis.isScanned && analysis.imageRatio == 1.0
    ensures CalculateCompressionParams(analysis, 80, "aggressive")
         == CompressionParams(Aggressive, 96, 0.68, Some(Round(analysis.fileSize as real * 0.36)), None)
  {
    assert RawDpi(80, "aggressive") == 96.0;
    RoundOfInteger(96);
    assert RawQuality(80, "aggressive") == 68 as real / 100.0;
    ToFixed2OfCents(68);
  }

  /** A text document (imageRatio 0.05) at a 15% target stays lossless. */
  lemma TextDocumentStaysLossless(analysis: Analysis, qualityFloor: string)
    requires analysis.imageRatio == 0.05
    ensures CalculateCompressionParams(analysis, 15, qualityFloor) == CompressionParams(Lossless, 300, 1.0, None, None)
  {
  }
}
