/** The page loop the hybrid and aggressive strategies share: open the
    document, then for each page 1..N check for cancellation, rasterise the
    page to a JPEG, add an output page showing it, report i / N; finally
    save. This module holds the specification of a run; the two strategy
    modules hold the methods that perform it. */
module PageLoop {
  import opened Wrappers
  import opened JsNumber
  import opened PdfModel
  import opened TargetEngine

  datatype Kind = HybridPass | AggressivePass

  /** scale = dpi / 72, PDF user space being 72 units per inch. */
  function RenderScale(dpi: Dpi): (scale: real)
    ensures scale > 0.0
    ensures scale * 72.0 == dpi as real
  {
    dpi as real / 72.0
  }

  /** The text items that str.trim() leaves non-empty. */
  function NonBlank(items: seq<TextItem>): (kept: seq<TextItem>)
    ensures |kept| <= |items|
    ensures forall t :: t in kept ==> t in items && !IsBlank(t.str)
  {
    if items == [] then []
    else if IsBlank(items[0].str) then NonBlank(items[1..])
    else [items[0]] + NonBlank(items[1..])
  }

  /** The invisible text drawn at an item's origin (transform[4], transform[5]). */
  function Invisible(item: TextItem): OverlayText
  {
    OverlayText(item.str, item.transform.e, item.transform.f, 0.0)
  }

  /** The hybrid overlay of one page: blank items are skipped; the first
      string the font cannot encode makes drawText throw, and the catch ends
      the overlay of that page, keeping what was drawn before it. */
  function Overlay(canEncode: string -> bool, items: seq<TextItem>): seq<OverlayText>
  {
    if items == [] then []
    else if IsBlank(items[0].str) then Overlay(canEncode, items[1..])
    else if !canEncode(items[0].str) then []
    else [Invisible(items[0])] + Overlay(canEncode, items[1..])
  }

  /** The overlay from item k on, one item at a time. */
  lemma OverlayStep(canEncode: string -> bool, items: seq<TextItem>, k: nat)
    requires k < |items|
    ensures Overlay(canEncode, items[k..]) ==
      if IsBlank(items[k].str) then Overlay(canEncode, items[k + 1..])
      else if !canEncode(items[k].str) then []
      else [Invisible(items[k])] + Overlay(canEncode, items[k + 1..])
  {
    assert items[k..][1..] == items[k + 1..];
  }

  /** The overlay is always a prefix of the invisible copies of the
      non-blank items, and all of them when the font encodes every string. */
  lemma {:induction false} OverlayIsPrefixOfNonBlank(canEncode: string -> bool, items: seq<TextItem>)
    ensures var all := NonBlank(items);
      var drawn := Overlay(canEncode, items);
      && |drawn| <= |all|
      && (forall j :: 0 <= j < |drawn| ==> drawn[j] == Invisible(all[j]))
      && ((forall t :: t in items ==> canEncode(t.str)) ==> |drawn| == |all|)
  {
    if items != [] {
      OverlayIsPrefixOfNonBlank(canEncode, items[1..]);
      assert forall t :: t in items[1..] ==> t in items;
    }
  }

  /** Every overlaid text is invisible (opacity 0). */
  lemma {:induction false} OverlayInvisible(canEncode: string -> bool, items: seq<TextItem>)
    ensures forall o :: o in Overlay(canEncode, items) ==> o.opacity == 0.0 && !IsBlank(o.str)
  {
    if items != [] {
      OverlayInvisible(canEncode, items[1..]);
    }
  }

  /** A length of the viewport at `scale`, divided by the scale again. */
  function Unscaled(length: real, scale: real): real
    requires scale > 0.0
  {
    length * scale / scale
  }

  lemma UnscaledIsIdentity(length: real, scale: real)
    requires scale > 0.0
    ensures Unscaled(length, scale) == length
  {
  }

  /** The output page for one input page, or the error that aborts the run. */
  function PageOutput(kind: Kind, tools: PdfTools, page: Page, params: CompressionParams): Result<OutPage, JsError>
  {
    var scale := RenderScale(params.dpi);
    match tools.rasterize(page, scale, params.jpegQuality)
    case Failure(e) => Failure(e)
    case Success(image) =>
      match kind
      case HybridPass =>
        Success(OutPage(page.width, page.height,
                        [PlacedImage(image, Rect(0.0, 0.0, page.width, page.height))],
                        Overlay(tools.canEncode, page.items)))
      case AggressivePass =>
        var width := Unscaled(page.width, scale);
        var height := Unscaled(page.height, scale);
        Success(OutPage(width, height, [PlacedImage(image, Rect(0.0, 0.0, width, height))], []))
  }

  /** Each output page shows exactly one image at (0, 0) covering the input
      page's size at scale 1; only the hybrid pass draws text, and only that
      of its overlay. */
  lemma PageOutputShape(kind: Kind, tools: PdfTools, page: Page, params: CompressionParams)
    requires PageOutput(kind, tools, page, params).Success?
    ensures var out := PageOutput(kind, tools, page, params).value;
      && out.width == page.width && out.height == page.height
      && |out.images| == 1 && out.images[0].rect == Rect(0.0, 0.0, page.width, page.height)
      && out.texts == (if kind == HybridPass then Overlay(tools.canEncode, page.items) else [])
  {
    var scale := RenderScale(params.dpi);
    UnscaledIsIdentity(page.width, scale);
    UnscaledIsIdentity(page.height, scale);
  }

  /** The progress fractions 1/n, 2/n, ..., k/n. */
  function Fractions(k: nat, n: nat): seq<real>
    requires k <= n
  {
    if k == 0 then [] else Fractions(k - 1, n) + [k as real / n as real]
  }

  lemma {:induction false} FractionsValues(k: nat, n: nat)
    requires k <= n
    ensures |Fractions(k, n)| == k
    ensures forall j :: 0 <= j < k ==> Fractions(k, n)[j] == (j + 1) as real / n as real
  {
    if k > 0 {
      FractionsValues(k - 1, n);
    }
  }

  lemma FractionOrder(a: nat, b: nat, n: nat)
    requires 0 < a < b <= n
    ensures 0.0 < a as real / n as real < b as real / n as real <= 1.0
  {
    var r := n as real;
    assert a as real / r * r == a as real;
    assert b as real / r * r == b as real;
  }

  /** a/n for 0 < a <= n lies in (0, 1]. */
  lemma FractionInRange(a: nat, n: nat)
    requires 0 < a <= n
    ensures 0.0 < a as real / n as real <= 1.0
  {
    if a < n {
      FractionOrder(a, n, n);
    } else {
      assert a as real / n as real == 1.0;
    }
  }

  lemma FractionAt(k: nat, n: nat, j: nat)
    requires j < k <= n
    ensures |Fractions(k, n)| == k && Fractions(k, n)[j] == (j + 1) as real / n as real
  {
    FractionsValues(k, n);
  }

  /** The fractions are strictly increasing, lie in (0, 1], and the last of
      a complete run is 1. */
  lemma FractionsFacts(k: nat, n: nat)
    requires k <= n
    ensures var f := Fractions(k, n);
      && |f| == k
      && (forall j :: 0 <= j < k ==> 0.0 < f[j] <= 1.0)
      && (forall i, j :: 0 <= i < j < k ==> f[i] < f[j])
      && (k == n && n > 0 ==> f[k - 1] == 1.0)
  {
    FractionsValues(k, n);
    var f := Fractions(k, n);
    forall i, j | 0 <= i < j < k
      ensures f[i] < f[j]
    {
      FractionAt(k, n, i);
      FractionAt(k, n, j);
      FractionOrder(i + 1, j + 1, n);
    }
    forall j | 0 <= j < k
      ensures 0.0 < f[j] <= 1.0
    {
      FractionAt(k, n, j);
      FractionInRange(j + 1, n);
    }
    if k == n && n > 0 {
      FractionAt(k, n, k - 1);
      assert n as real / n as real == 1.0;
    }
  }

  /** Whether the check before page j + 1 of a loop whose first check is
      the job's firstCheck-th sees the abort flag. */
  predicate AbortSeen(signal: Signal, firstCheck: nat, j: nat)
  {
    Aborted(signal, firstCheck + j)
  }

  /** State of the loop: still running with the pages added and the progress
      reported so far, or stopped by a thrown error. */
  datatype LoopState = Running(pages: seq<OutPage>, progress: seq<real>) | Stopped(error: JsError, progress: seq<real>)

  /** The state after the first k iterations. Page i (1-based) reads the
      abort flag as the job's (firstCheck + i - 1)-th check. */
  function PassOver(kind: Kind, tools: PdfTools, doc: Doc, params: CompressionParams,
                    signal: Signal, firstCheck: nat, k: nat): LoopState
    requires k <= |doc|
  {
    if k == 0 then Running([], [])
    else
      match PassOver(kind, tools, doc, params, signal, firstCheck, k - 1)
      case Stopped(e, p) => Stopped(e, p)
      case Running(pages, p) =>
        if AbortSeen(signal, firstCheck, k - 1) then Stopped(AbortError, p)
        else
          match PageOutput(kind, tools, doc[k - 1], params)
          case Failure(e) => Stopped(e, p)
          case Success(out) => Running(pages + [out], p + [k as real / |doc| as real])
  }

  /** A running loop has handled pages 1..k in order, one output page each,
      and reported k/N after page k. A stopped loop stopped at page m + 1,
      where m is the number of progress reports: pages 1..m went through,
      and page m + 1 saw the abort flag or failed to rasterise. */
  lemma {:induction false} PassFacts(kind: Kind, tools: PdfTools, doc: Doc, params: CompressionParams,
                                     signal: Signal, firstCheck: nat, k: nat)
    requires k <= |doc|
    ensures match PassOver(kind, tools, doc, params, signal, firstCheck, k)
      case Running(pages, p) =>
        && |pages| == k && p == Fractions(k, |doc|)
        && (forall j :: 0 <= j < k ==> !AbortSeen(signal, firstCheck, j))
        && (forall j :: 0 <= j < k ==> PageOutput(kind, tools, doc[j], params) == Success(pages[j]))
      case Stopped(e, p) =>
        var m := |p|;
        && m < k && p == Fractions(m, |doc|)
        && (forall j :: 0 <= j < m ==> !AbortSeen(signal, firstCheck, j) && PageOutput(kind, tools, doc[j], params).Success?)
        && (AbortSeen(signal, firstCheck, m) ==> e == AbortError)
        && (!AbortSeen(signal, firstCheck, m) ==> PageOutput(kind, tools, doc[m], params) == Failure(e))
  {
    if k > 0 {
      PassFacts(kind, tools, doc, params, signal, firstCheck, k - 1);
      FractionsValues(k - 1, |doc|);
    }
  }

  /** Once stopped, the loop stays stopped with the same error and progress. */
  lemma {:induction false} StoppedPersists(kind: Kind, tools: PdfTools, doc: Doc, params: CompressionParams,
                                           signal: Signal, firstCheck: nat, k: nat, k': nat)
    requires k <= k' <= |doc|
    requires PassOver(kind, tools, doc, params, signal, firstCheck, k).Stopped?
    ensures PassOver(kind, tools, doc, params, signal, firstCheck, k') == PassOver(kind, tools, doc, params, signal, firstCheck, k)
    decreases k' - k
  {
    if k < k' {
      StoppedPersists(kind, tools, doc, params, signal, firstCheck, k, k' - 1);
    }
  }

  /** The outcome of one strategy run: the saved bytes or the thrown error,
      the progress reported, and the number of abort checks made by a run
      that got through the page loop. */
  datatype Run = Run(outcome: Result<Bytes, JsError>, progress: seq<real>, checks: nat)

  function RunPages(kind: Kind, tools: PdfTools, bytes: Bytes, params: CompressionParams,
                    signal: Signal, firstCheck: nat): Run
  {
    match tools.open(bytes)
    case Failure(e) => Run(Failure(e), [], 0)
    case Success(doc) =>
      match PassOver(kind, tools, doc, params, signal, firstCheck, |doc|)
      case Running(pages, p) => Run(Success(tools.save(pages)), p, |doc|)
      case Stopped(e, p) => Run(Failure(e), p, |doc|)
  }

  /** A successful run saved one output page per input page, each being the
      page's output, and reported 1/N, ..., N/N: strictly increasing, in
      (0, 1], ending at 1 (no report at all for an empty document). */
  lemma RunSucceeds(kind: Kind, tools: PdfTools, bytes: Bytes, params: CompressionParams,
                    signal: Signal, firstCheck: nat)
    requires RunPages(kind, tools, bytes, params, signal, firstCheck).outcome.Success?
    ensures tools.open(bytes).Success?
    ensures var doc := tools.open(bytes).value;
      var run := RunPages(kind, tools, bytes, params, signal, firstCheck);
      var state := PassOver(kind, tools, doc, params, signal, firstCheck, |doc|);
      && state.Running?
      && |state.pages| == |doc|
      && run.outcome.value == tools.save(state.pages)
      && (forall j :: 0 <= j < |doc| ==> PageOutput(kind, tools, doc[j], params) == Success(state.pages[j]))
      && run.progress == Fractions(|doc|, |doc|)
      && |run.progress| == |doc|
      && (forall i, j :: 0 <= i < j < |doc| ==> run.progress[i] < run.progress[j])
      && (|doc| > 0 ==> run.progress[|doc| - 1] == 1.0)
      && run.checks == |doc|
  {
    var doc := tools.open(bytes).value;
    PassFacts(kind, tools, doc, params, signal, firstCheck, |doc|);
    FractionsFacts(|doc|, |doc|);
  }

  /** If the abort flag is up at the check before page j + 1, the run throws
      AbortError or an earlier page's error; it never returns bytes, and no
      page from j + 1 on has been processed or reported. */
  lemma AbortStopsRun(kind: Kind, tools: PdfTools, bytes: Bytes, params: CompressionParams,
                      signal: Signal, firstCheck: nat, j: nat)
    requires tools.open(bytes).Success? && j < |tools.open(bytes).value|
    requires AbortSeen(signal, firstCheck, j)
    ensures var run := RunPages(kind, tools, bytes, params, signal, firstCheck);
      run.outcome.Failure? && |run.progress| <= j
  {
    var doc := tools.open(bytes).value;
    PassFacts(kind, tools, doc, params, signal, firstCheck, |doc|);
  }

  /** Without cancellation and with every page rasterised, the run succeeds. */
  lemma RunWithoutFailure(kind: Kind, tools: PdfTools, bytes: Bytes, params: CompressionParams,
                          signal: Signal, firstCheck: nat)
    requires tools.open(bytes).Success?
    requires forall j :: 0 <= j < |tools.open(bytes).value| ==> !AbortSeen(signal, firstCheck, j)
    requires forall page :: page in tools.open(bytes).value ==> tools.rasterize(page, RenderScale(params.dpi), params.jpegQuality).Success?
    ensures RunPages(kind, tools, bytes, params, signal, firstCheck).outcome.Success?
  {
    var doc := tools.open(bytes).value;
    PassFacts(kind, tools, doc, params, signal, firstCheck, |doc|);
    match PassOver(kind, tools, doc, params, signal, firstCheck, |doc|)
    case Running(_, _) =>
    case Stopped(e, p) =>
      assert doc[|p|] in doc;
  }
}
