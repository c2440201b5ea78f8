/** compressPDF: a first pass with the chosen strategy and, when the result
    falls well short of the target, one refinement pass with stricter
    parameters on a fresh copy of the original bytes. */
module CompressPdf {
  import opened Wrappers
  import opened JsNumber
  import opened PdfModel
  import opened TargetEngine
  import opened PageLoop
  import HybridStrategy
  import AggressiveStrategy

  /** One onProgress(progress, status) call; status is undefined for the
      calls a strategy makes directly. */
  datatype ProgressEvent = ProgressEvent(fraction: real, status: Option<string>)

  /** The outcome of a compression job, the progress it reported and the
      number of strategy passes it ran. */
  datatype Job = Job(outcome: Result<Bytes, JsError>, progress: seq<ProgressEvent>, passes: nat)

  const RefiningStatus := "Refining for target..."
  const FinalizingStatus := "Finalizing..."

  /** executeStrategy: one abort check, then the strategy. 'lossless' and
      any unknown name re-save the document with pdf-lib and report no
      progress. */
  function ExecuteSpec(tools: PdfTools, bytes: Bytes, strategy: Strategy, params: CompressionParams,
                       signal: Signal, firstCheck: nat): Run
  {
    if Aborted(signal, firstCheck) then Run(Failure(AbortError), [], 1)
    else
      match strategy
      case Hybrid =>
        var run := RunPages(HybridPass, tools, bytes, params, signal, firstCheck + 1);
        run.(checks := run.checks + 1)
      case Aggressive =>
        var run := RunPages(AggressivePass, tools, bytes, params, signal, firstCheck + 1);
        run.(checks := run.checks + 1)
      case _ => Run(tools.resave(bytes), [], 1)
  }

  method ExecuteStrategy(arrayBuffer: ArrayBuffer, strategy: Strategy, params: CompressionParams,
                         tools: PdfTools, signal: Signal, firstCheck: nat) returns (run: Run)
    requires !arrayBuffer.detached
    modifies arrayBuffer
    ensures run == ExecuteSpec(tools, old(arrayBuffer.bytes), strategy, params, signal, firstCheck)
  {
    if Aborted(signal, firstCheck) {
      return Run(Failure(AbortError), [], 1);
    }
    match strategy
    case Hybrid =>
      run := HybridStrategy.CompressHybrid(arrayBuffer, params, tools, signal, firstCheck + 1);
      run := run.(checks := run.checks + 1);
    case Aggressive =>
      run := AggressiveStrategy.CompressAggressive(arrayBuffer, params, tools, signal, firstCheck + 1);
      run := run.(checks := run.checks + 1);
    case _ =>
      // compressLossless: PDFDocument.load and save
      run := Run(tools.resave(arrayBuffer.bytes), [], 1);
  }

  /** Whether the first pass is more than 10 points short of the target.
      reductionAchieved = (originalSize - resultSize) / originalSize * 100; for
      an empty original it is -Infinity (a non-empty result) or NaN (an empty
      one), and an undefined target gives NaN: comparisons with NaN are false. */
  predicate NeedsRefinement(originalSize: nat, resultSize: nat, params: CompressionParams)
  {
    && params.strategy != Lossless
    && params.targetReduction.Some?
    && if originalSize == 0 then resultSize > 0
       else
         var reductionAchieved := (originalSize as real - resultSize as real) / originalSize as real * 100.0;
         params.targetReduction.value as real - reductionAchieved > 10.0
  }

  /** The stricter parameters of the refinement pass. */
  function Refine(params: CompressionParams): (refined: CompressionParams)
    ensures refined.strategy == params.strategy
    ensures refined.predictedSize == params.predictedSize
    ensures refined.targetReduction == params.targetReduction
  {
    params.(jpegQuality := MaxReal(0.6, params.jpegQuality * 0.8),
            dpi := MaxInt(96, Floor(params.dpi as real * 0.9)))
  }

  /** The progress the first pass reports, passed through unchanged. */
  function Direct(progress: seq<real>): (events: seq<ProgressEvent>)
    ensures |events| == |progress|
    ensures forall j :: 0 <= j < |progress| ==> events[j] == ProgressEvent(progress[j], None)
  {
    if progress == [] then [] else Direct(progress[..|progress| - 1]) + [ProgressEvent(progress[|progress| - 1], None)]
  }

  /** The refinement pass's progress, mapped into the second half. */
  function Rebased(progress: seq<real>): (events: seq<ProgressEvent>)
    ensures |events| == |progress|
    ensures forall j :: 0 <= j < |progress| ==>
      events[j] == ProgressEvent(0.5 + progress[j] * 0.5, Some(FinalizingStatus))
  {
    if progress == [] then []
    else Rebased(progress[..|progress| - 1]) + [ProgressEvent(0.5 + progress[|progress| - 1] * 0.5, Some(FinalizingStatus))]
  }

  /** The whole job. The first pass makes checks 0.. of the job; the check
      after it is the first pass's count; the refinement pass starts after
      that. */
  function CompressSpec(tools: PdfTools, bytes: Bytes, params: CompressionParams, signal: Signal): Job
  {
    var first := ExecuteSpec(tools, bytes, params.strategy, params, signal, 0);
    var firstEvents := Direct(first.progress);
    if first.outcome.Failure? then Job(first.outcome, firstEvents, 1)
    else if Aborted(signal, first.checks) then Job(Failure(AbortError), firstEvents, 1)
    else if !NeedsRefinement(|bytes|, |first.outcome.value|, params) then Job(first.outcome, firstEvents, 1)
    else
      var second := ExecuteSpec(tools, bytes, params.strategy, Refine(params), signal, first.checks + 1);
      Job(second.outcome,
          firstEvents + [ProgressEvent(0.5, Some(RefiningStatus))] + Rebased(second.progress),
          2)
  }

  /** compressPDF. Each pass runs on its own slice of the buffer, which is
      left as it was: the method may modify no object that existed before. */
  method CompressPDF(arrayBuffer: ArrayBuffer, params: CompressionParams, tools: PdfTools, signal: Signal)
    returns (job: Job)
    requires !arrayBuffer.detached
    ensures job == CompressSpec(tools, arrayBuffer.bytes, params, signal)
  {
    var originalSize := |arrayBuffer.bytes|;
    var firstPassBuffer := arrayBuffer.Slice();
    var first := ExecuteStrategy(firstPassBuffer, params.strategy, params, tools, signal, 0);
    var progress := Direct(first.progress);
    if first.outcome.Failure? {
      return Job(first.outcome, progress, 1);
    }
    if Aborted(signal, first.checks) {
      return Job(Failure(AbortError), progress, 1);
    }
    var result := first.outcome.value;
    var passes := 1;
    if NeedsRefinement(originalSize, |result|, params) {
      var refinedParams := Refine(params);
      progress := progress + [ProgressEvent(0.5, Some(RefiningStatus))];
      var refinementBuffer := arrayBuffer.Slice();
      var second := ExecuteStrategy(refinementBuffer, params.strategy, refinedParams, tools, signal, first.checks + 1);
      progress := progress + Rebased(second.progress);
      passes := 2;
      if second.outcome.Failure? {
        return Job(second.outcome, progress, passes);
      }
      result := second.outcome.value;
    }
    job := Job(Success(result), progress, passes);
  }

  // ----------------------------------------------------------------------
  // Properties

  /** The refinement pass runs, once, exactly when the first pass returned
      bytes, no abort was seen after it, the strategy is not 'lossless' and
      the result is more than 10 points short of the target. */
  lemma RefinementIff(tools: PdfTools, bytes: Bytes, params: CompressionParams, signal: Signal)
    ensures var first := ExecuteSpec(tools, bytes, params.strategy, params, signal, 0);
      var job := CompressSpec(tools, bytes, params, signal);
      && (job.passes == 1 || job.passes == 2)
      && (job.passes == 2 <==>
            first.outcome.Success? && !Aborted(signal, first.checks)
            && params.strategy != Lossless
            && NeedsRefinement(|bytes|, |first.outcome.value|, params))
  {
  }

  /** On a non-empty original with a target, refinement is triggered exactly
      when the result is larger than (1 - (target - 10) / 100) of the original. */
  lemma RefinementThreshold(originalSize: nat, resultSize: nat, params: CompressionParams)
    requires originalSize > 0 && params.strategy != Lossless && params.targetReduction.Some?
    ensures NeedsRefinement(originalSize, resultSize, params)
        <==> resultSize as real * 100.0 > originalSize as real * (110.0 - params.targetReduction.value as real)
  {
    var o := originalSize as real;
    var r := resultSize as real;
    var t := params.targetReduction.value as real;
    var q := (o - r) / o;
    assert q * o == o - r;
    var reductionAchieved := q * 100.0;
    assert reductionAchieved * o == (o - r) * 100.0;
    ScaleByPositive(t - 10.0, reductionAchieved, o);
    assert (t - 10.0) * o == t * o - 10.0 * o;
  }

  lemma ScaleByPositive(a: real, b: real, c: real)
    requires c > 0.0
    ensures a > b <==> a * c > b * c
  {
    if a > b {
      assert (a - b) * c > 0.0;
    } else {
      assert (b - a) * c >= 0.0;
    }
  }

  /** The refined parameters never exceed the original ones once these are
      at least 96 dpi and quality 0.6 (as calculateCompressionParams always
      gives), are strictly lower above those floors, and stay on them. */
  lemma RefineIsStricter(params: CompressionParams)
    requires params.dpi >= 96 && params.jpegQuality >= 0.6
    ensures var refined := Refine(params);
      && 96 <= refined.dpi <= params.dpi
      && (params.dpi > 96 ==> refined.dpi < params.dpi)
      && 0.6 <= refined.jpegQuality <= params.jpegQuality
      && (params.jpegQuality > 0.6 ==> refined.jpegQuality < params.jpegQuality)
  {
  }

  /** The refined resolution is the larger of 96 and the floor of 90% of the
      resolution; for the calculated 150 dpi that is 135. */
  lemma RefineExample(params: CompressionParams)
    requires params.dpi == 150 && params.jpegQuality == 0.85
    ensures Refine(params).dpi == 135 && Refine(params).jpegQuality == 0.68
  {
    assert Floor(150.0 * 0.9) == 135;
  }

  lemma {:induction false} RunProgressInUnit(kind: Kind, tools: PdfTools, bytes: Bytes, params: CompressionParams,
                                             signal: Signal, firstCheck: nat)
    ensures forall p :: p in RunPages(kind, tools, bytes, params, signal, firstCheck).progress ==> 0.0 < p <= 1.0
  {
    match tools.open(bytes)
    case Failure(_) =>
    case Success(doc) =>
      PassFacts(kind, tools, doc, params, signal, firstCheck, |doc|);
      var state := PassOver(kind, tools, doc, params, signal, firstCheck, |doc|);
      var m := |state.progress|;
      assert m <= |doc| && state.progress == Fractions(m, |doc|) by {
        if state.Running? {
          FractionsValues(|doc|, |doc|);
        }
      }
      FractionsFacts(m, |doc|);
      forall p | p in state.progress
        ensures 0.0 < p <= 1.0
      {
        var j :| 0 <= j < m && state.progress[j] == p;
      }
  }

  lemma ExecuteProgressInUnit(tools: PdfTools, bytes: Bytes, strategy: Strategy, params: CompressionParams,
                              signal: Signal, firstCheck: nat)
    ensures forall p :: p in ExecuteSpec(tools, bytes, strategy, params, signal, firstCheck).progress ==> 0.0 < p <= 1.0
  {
    RunProgressInUnit(HybridPass, tools, bytes, params, signal, firstCheck + 1);
    RunProgressInUnit(AggressivePass, tools, bytes, params, signal, firstCheck + 1);
  }

  /** Every reported fraction lies in [0, 1]; when the refinement pass ran,
      the events from the "Refining for target..." one on lie in [0.5, 1]. */
  lemma ProgressInRange(tools: PdfTools, bytes: Bytes, params: CompressionParams, signal: Signal)
    ensures var job := CompressSpec(tools, bytes, params, signal);
      var first := ExecuteSpec(tools, bytes, params.strategy, params, signal, 0);
      && (forall j :: 0 <= j < |job.progress| ==> 0.0 <= job.progress[j].fraction <= 1.0)
      && (job.passes == 2 ==>
            && |job.progress| > |first.progress|
            && job.progress[|first.progress|] == ProgressEvent(0.5, Some(RefiningStatus))
            && forall j :: |first.progress| <= j < |job.progress| ==> 0.5 <= job.progress[j].fraction <= 1.0)
  {
    var first := ExecuteSpec(tools, bytes, params.strategy, params, signal, 0);
    ExecuteProgressInUnit(tools, bytes, params.strategy, params, signal, 0);
    DirectInUnit(first.progress);
    if first.outcome.Success? && !Aborted(signal, first.checks) && NeedsRefinement(|bytes|, |first.outcome.value|, params) {
      var second := ExecuteSpec(tools, bytes, params.strategy, Refine(params), signal, first.checks + 1);
      ExecuteProgressInUnit(tools, bytes, params.strategy, Refine(params), signal, first.checks + 1);
      RebasedInHalf(second.progress);
      var head := Direct(first.progress) + [ProgressEvent(0.5, Some(RefiningStatus))];
      var job := CompressSpec(tools, bytes, params, signal);
      assert job.progress == head + Rebased(second.progress);
      TwoPassRange(Direct(first.progress), ProgressEvent(0.5, Some(RefiningStatus)), Rebased(second.progress));
    }
  }

  /** The first pass's events carry fractions in [0, 1]. */
  lemma DirectInUnit(progress: seq<real>)
    requires forall p :: p in progress ==> 0.0 < p <= 1.0
    ensures forall j :: 0 <= j < |progress| ==> 0.0 <= Direct(progress)[j].fraction <= 1.0
  {
    forall j | 0 <= j < |progress|
      ensures 0.0 <= Direct(progress)[j].fraction <= 1.0
    {
      assert progress[j] in progress;
    }
  }

  /** The refinement pass's events carry fractions in [0.5, 1]. */
  lemma RebasedInHalf(progress: seq<real>)
    requires forall p :: p in progress ==> 0.0 < p <= 1.0
    ensures forall j :: 0 <= j < |progress| ==> 0.5 <= Rebased(progress)[j].fraction <= 1.0
  {
    forall j | 0 <= j < |progress|
      ensures 0.5 <= Rebased(progress)[j].fraction <= 1.0
    {
      assert progress[j] in progress;
    }
  }

  /** The fraction bounds of the two-pass event list, from those of its parts. */
  lemma TwoPassRange(direct: seq<ProgressEvent>, refining: ProgressEvent, rebased: seq<ProgressEvent>)
    requires forall j :: 0 <= j < |direct| ==> 0.0 <= direct[j].fraction <= 1.0
    requires refining.fraction == 0.5
    requires forall j :: 0 <= j < |rebased| ==> 0.5 <= rebased[j].fraction <= 1.0
    ensures var all := direct + [refining] + rebased;
      && (forall j :: 0 <= j < |all| ==> 0.0 <= all[j].fraction <= 1.0)
      && (forall j :: |direct| <= j < |all| ==> 0.5 <= all[j].fraction <= 1.0)
  {
    var all := direct + [refining] + rebased;
    forall j | |direct| < j < |all|
      ensures all[j] == rebased[j - |direct| - 1]
    {
    }
  }

  /** A signal already raised when the job starts makes it throw
      AbortError before any strategy runs or reports progress. */
  lemma AbortBeforeDispatch(tools: PdfTools, bytes: Bytes, params: CompressionParams)
    ensures CompressSpec(tools, bytes, params, Signal(Some(0))) == Job(Failure(AbortError), [], 1)
  {
  }

  /** A signal raised at any check up to the one after the first pass makes
      the job fail: it never returns bytes. */
  lemma AbortUpToFirstPassFails(tools: PdfTools, bytes: Bytes, params: CompressionParams, signal: Signal)
    requires var first := ExecuteSpec(tools, bytes, params.strategy, params, signal, 0);
      Aborted(signal, first.checks)
    ensures CompressSpec(tools, bytes, params, signal).outcome.Failure?
  {
  }

  /** A lossless job runs one pass, reports no progress and returns what
      pdf-lib's re-save returns (after the two abort checks). */
  lemma LosslessJob(tools: PdfTools, bytes: Bytes, params: CompressionParams)
    requires params.strategy == Lossless
    ensures CompressSpec(tools, bytes, params, Signal(None)) == Job(tools.resave(bytes), [], 1)
  {
  }
}
