/** analyzePDF: samples pages of a document, adds up their image-painting
    operators and text items, picks representative pages and derives the
    image/text ratio. A document is seen as its per-page counts. */
module AnalyzePdf {
  import opened Wrappers
  import opened JsNumber

  /** What analyzePDF reads of one page: image-painting operators and text items. */
  datatype PageCounts = PageCounts(imageCount: nat, textItemCount: nat)

  /** The representative pages, after the fallback to page 1. */
  datatype Samples = Samples(text: nat, image: nat, mixed: nat)

  /** The record analyzePDF resolves to. */
  datatype Analysis = Analysis(
    fileSize: nat,
    pageCount: nat,
    imageRatio: real,
    textRatio: real,
    isScanned: bool,
    samplePages: Samples)

  // ----------------------------------------------------------------------
  // The set of sampled pages, in the insertion order of the JavaScript Set

  predicate Distinct(s: seq<nat>)
  {
    forall i, j :: 0 <= i < j < |s| ==> s[i] != s[j]
  }

  /** set.add(p): a value already present keeps its position. */
  function SetAdd(order: seq<nat>, p: nat): seq<nat>
  {
    if p in order then order else order + [p]
  }

  /** new Set(ps) seeded with `order`: adds ps from left to right. */
  function SetAddAll(order: seq<nat>, ps: seq<nat>): seq<nat>
    decreases |ps|
  {
    if ps == [] then order else SetAddAll(SetAdd(order, ps[0]), ps[1..])
  }

  /** The loop `for (i = from; i <= to; i++) set.add(i)`. */
  function SetAddRange(order: seq<nat>, from: nat, to: int): seq<nat>
    decreases to - from
  {
    if from > to then order else SetAddRange(SetAdd(order, from), from + 1, to)
  }

  /** [1, Math.floor(n / 2), n].filter(p => p > 0 && p <= n) */
  function Probes(n: nat): seq<nat>
  {
    (if 1 <= n then [1] else []) + (if 0 < n / 2 <= n then [n / 2] else []) + (if 0 < n then [n] else [])
  }

  /** The pages analyzePDF visits, in the order it visits them. */
  function SampleOrder(n: nat): seq<nat>
  {
    SetAddRange(SetAddAll([], Probes(n)), 1, MinInt(n, 10))
  }

  /** The first three entries of the Set: page 1, the middle page and the last
      page, duplicates dropped. */
  function DistinctProbes(n: nat): seq<nat>
  {
    if n == 0 then [] else if n == 1 then [1] else if n <= 3 then [1, n] else [1, n / 2, n]
  }

  /** The range loop keeps what the Set held, in place, and adds exactly the
      pages of the range. */
  lemma {:induction false} SetAddRangeKeeps(order: seq<nat>, from: nat, to: int)
    requires Distinct(order)
    ensures (var r := SetAddRange(order, from, to);
      && Distinct(r)
      && |r| >= |order| && r[..|order|] == order
      && (forall p :: p in r <==> p in order || from <= p <= to))
    decreases if from <= to then to - from + 1 else 0
  {
    if from <= to {
      var next := SetAdd(order, from);
      assert Distinct(next);
      SetAddRangeKeeps(next, from + 1, to);
      var r := SetAddRange(next, from + 1, to);
      assert r[..|next|] == next;
      assert r[..|order|] == next[..|order|] == order;
    }
  }

  /** What the range loop appends are pages of the range the Set did not
      hold, in ascending order. */
  lemma {:induction false} SetAddRangeAppends(order: seq<nat>, from: nat, to: int)
    requires Distinct(order)
    ensures (var r := SetAddRange(order, from, to);
      && (forall j :: |order| <= j < |r| ==> from <= r[j] <= to && r[j] !in order)
      && (forall i, j :: |order| <= i < j < |r| ==> r[i] < r[j]))
    decreases if from <= to then to - from + 1 else 0
  {
    if from <= to {
      var next := SetAdd(order, from);
      assert Distinct(next);
      SetAddRangeKeeps(next, from + 1, to);
      SetAddRangeAppends(next, from + 1, to);
      var r := SetAddRange(next, from + 1, to);
      assert r[..|next|] == next;
      forall j | |order| <= j < |r|
        ensures from <= r[j] <= to && r[j] !in order
      {
        if j < |next| {
          assert r[j] == next[j] == from;
        }
      }
      forall i, j | |order| <= i < j < |r|
        ensures r[i] < r[j]
      {
        if i < |next| {
          assert r[i] == from;
          assert r[j] !in next;
        }
      }
    }
  }

  lemma SetAddRangeFacts(order: seq<nat>, from: nat, to: int)
    requires Distinct(order)
    ensures (var r := SetAddRange(order, from, to);
      && Distinct(r)
      && |r| >= |order| && r[..|order|] == order
      && (forall p :: p in r <==> p in order || from <= p <= to)
      && (forall j :: |order| <= j < |r| ==> from <= r[j] <= to && r[j] !in order)
      && (forall i, j :: |order| <= i < j < |r| ==> r[i] < r[j]))
  {
    SetAddRangeKeeps(order, from, to);
    SetAddRangeAppends(order, from, to);
  }

  lemma ProbesSet(n: nat)
    ensures SetAddAll([], Probes(n)) == DistinctProbes(n)
  {
    if n >= 4 {
      ProbesSetLarge(n);
    } else {
      ProbesSetSmall(n);
    }
  }

  lemma ProbesSetLarge(n: nat)
    requires n >= 4
    ensures SetAddAll([], Probes(n)) == DistinctProbes(n)
  {
    var h := n / 2;
    assert 1 < h < n;
    assert Probes(n) == [1, h, n];
    assert [1, h, n][1..] == [h, n] && [h, n][1..] == [n];
    assert SetAdd([], 1) == [1] && SetAdd([1], h) == [1, h] && SetAdd([1, h], n) == [1, h, n];
    assert SetAddAll([], [1, h, n]) == SetAddAll([1], [h, n]);
    assert SetAddAll([1], [h, n]) == SetAddAll([1, h], [n]);
    assert SetAddAll([1, h], [n]) == SetAddAll([1, h, n], []);
  }

  lemma ProbesSetSmall(n: nat)
    requires n < 4
    ensures SetAddAll([], Probes(n)) == DistinctProbes(n)
  {
    if n == 3 {
      assert Probes(3) == [1, 1, 3];
      assert SetAddAll([], [1, 1, 3]) == SetAddAll([1], [1, 3]) == SetAddAll([1], [3]) == [1, 3];
    } else if n == 2 {
      assert Probes(2) == [1, 1, 2];
      assert SetAddAll([], [1, 1, 2]) == SetAddAll([1], [1, 2]) == SetAddAll([1], [2]) == [1, 2];
    } else if n == 1 {
      assert Probes(1) == [1, 1];
      assert SetAddAll([], [1, 1]) == SetAddAll([1], [1]) == SetAddAll([1], []) == [1];
    } else {
      assert Probes(0) == [];
    }
  }

  /** The sampled pages: page 1, the middle page, the last page and the first
      ten pages, each at most once and all within 1..n; they come in Set
      insertion order: the distinct probes first, then the remaining
      pages among 2..min(n, 10) in ascending order. */
  lemma SampleOrderFacts(n: nat)
    ensures (var s := SampleOrder(n);
      && Distinct(s)
      && (forall p :: p in s <==> 1 <= p <= n && (p == 1 || p == n / 2 || p == n || p <= 10))
      && |s| >= |DistinctProbes(n)| && s[..|DistinctProbes(n)|] == DistinctProbes(n)
      && (forall j :: |DistinctProbes(n)| <= j < |s| ==> 2 <= s[j] <= MinInt(n, 10))
      && (forall i, j :: |DistinctProbes(n)| <= i < j < |s| ==> s[i] < s[j]))
  {
    ProbesSet(n);
    var d := DistinctProbes(n);
    DistinctProbesFacts(n);
    SetAddRangeFacts(d, 1, MinInt(n, 10));
    var s := SampleOrder(n);
    assert s == SetAddRange(d, 1, MinInt(n, 10));
    forall p
      ensures p in s <==> 1 <= p <= n && (p == 1 || p == n / 2 || p == n || p <= 10)
    {
      assert p in s <==> p in d || 1 <= p <= MinInt(n, 10);
    }
    forall j | |d| <= j < |s|
      ensures 2 <= s[j]
    {
      assert s[j] !in d;
    }
  }

  lemma DistinctProbesFacts(n: nat)
    ensures Distinct(DistinctProbes(n))
    ensures forall p :: p in DistinctProbes(n) <==> 1 <= p <= n && (p == 1 || p == n / 2 || p == n)
    ensures n >= 1 ==> 1 in DistinctProbes(n)
  {
  }

  /** pagesToAnalyze: the Set is seeded with the probes and then the pages
      1..min(n, 10) are added one by one. */
  method PagesToAnalyze(pageCount: nat) returns (pages: seq<nat>)
    ensures pages == SampleOrder(pageCount)
  {
    pages := SetAddAll([], Probes(pageCount));
    var last := MinInt(pageCount, 10);
    var i := 1;
    while i <= last
      invariant 1 <= i <= MaxInt(last, 0) + 1
      invariant SetAddRange(pages, i, last) == SampleOrder(pageCount)
      decreases last - i
    {
      if i !in pages {
        pages := pages + [i];
      }
      i := i + 1;
    }
  }

  // ----------------------------------------------------------------------
  // Totals and page classification over the visited pages

  predicate InRange(order: seq<nat>, n: nat)
  {
    forall j :: 0 <= j < |order| ==> 1 <= order[j] <= n
  }

  lemma SampleOrderInRange(n: nat)
    ensures InRange(SampleOrder(n), n)
  {
    SampleOrderFacts(n);
    var s := SampleOrder(n);
    forall j | 0 <= j < |s|
      ensures 1 <= s[j] <= n
    {
      assert s[j] in s;
    }
  }

  function SampledImages(counts: seq<PageCounts>, order: seq<nat>): nat
    requires InRange(order, |counts|)
    decreases |order|
  {
    if order == [] then 0
    else SampledImages(counts, order[..|order| - 1]) + counts[order[|order| - 1] - 1].imageCount
  }

  function SampledTextItems(counts: seq<PageCounts>, order: seq<nat>): nat
    requires InRange(order, |counts|)
    decreases |order|
  {
    if order == [] then 0
    else SampledTextItems(counts, order[..|order| - 1]) + counts[order[|order| - 1] - 1].textItemCount
  }

  datatype Category = TextCategory | ImageCategory | MixedCategory

  /** > 50 text items and no image; images and < 10 text items; images and > 20 text items. */
  predicate Qualifies(cat: Category, c: PageCounts)
  {
    match cat
    case TextCategory => c.textItemCount > 50 && c.imageCount == 0
    case ImageCategory => c.imageCount > 0 && c.textItemCount < 10
    case MixedCategory => c.imageCount > 0 && c.textItemCount > 20
  }

  /** samplePages while the loop runs: null until a page is classified. */
  datatype Candidates = Candidates(text: Option<nat>, image: Option<nat>, mixed: Option<nat>)

  /** The else-if chain that classifies one visited page. */
  function ClassifyStep(s: Candidates, pageNum: nat, c: PageCounts): Candidates
  {
    if s.text.None? && c.textItemCount > 50 && c.imageCount == 0 then s.(text := Some(pageNum))
    else if s.image.None? && c.imageCount > 0 && c.textItemCount < 10 then s.(image := Some(pageNum))
    else if s.mixed.None? && c.imageCount > 0 && c.textItemCount > 20 then s.(mixed := Some(pageNum))
    else s
  }

  function Classified(counts: seq<PageCounts>, order: seq<nat>): Candidates
    requires InRange(order, |counts|)
    decreases |order|
  {
    if order == [] then Candidates(None, None, None)
    else
      var last := order[|order| - 1];
      ClassifyStep(Classified(counts, order[..|order| - 1]), last, counts[last - 1])
  }

  /** Visiting the next sampled page adds its counts and classifies it. */
  lemma VisitStep(counts: seq<PageCounts>, order: seq<nat>, k: nat)
    requires InRange(order, |counts|) && k < |order|
    ensures InRange(order[..k], |counts|) && InRange(order[..k + 1], |counts|)
    ensures var c := counts[order[k] - 1];
      && SampledImages(counts, order[..k + 1]) == SampledImages(counts, order[..k]) + c.imageCount
      && SampledTextItems(counts, order[..k + 1]) == SampledTextItems(counts, order[..k]) + c.textItemCount
      && Classified(counts, order[..k + 1]) == ClassifyStep(Classified(counts, order[..k]), order[k], c)
  {
    assert order[..k + 1][..k] == order[..k];
  }

  /** The first visited page of a category, if any. */
  function FirstOf(counts: seq<PageCounts>, order: seq<nat>, cat: Category): Option<nat>
    requires InRange(order, |counts|)
    decreases |order|
  {
    if order == [] then None
    else if Qualifies(cat, counts[order[0] - 1]) then Some(order[0])
    else FirstOf(counts, order[1..], cat)
  }

  lemma {:induction false} FirstOfAppend(counts: seq<PageCounts>, order: seq<nat>, p: nat, cat: Category)
    requires InRange(order, |counts|) && 1 <= p <= |counts|
    ensures InRange(order + [p], |counts|)
    ensures FirstOf(counts, order + [p], cat)
         == if FirstOf(counts, order, cat).Some? then FirstOf(counts, order, cat)
            else if Qualifies(cat, counts[p - 1]) then Some(p) else None
    decreases |order|
  {
    assert forall j :: 0 <= j < |order| ==> order[j] == (order + [p])[j];
    if order != [] {
      assert (order + [p])[1..] == order[1..] + [p];
      FirstOfAppend(counts, order[1..], p, cat);
    }
  }

  function Get(s: Candidates, cat: Category): Option<nat>
  {
    match cat
    case TextCategory => s.text
    case ImageCategory => s.image
    case MixedCategory => s.mixed
  }

  /** The else-if chain sets each category to the first visited page of that
      category: the three conditions exclude each other, so a page that
      qualifies for one is never withheld from another. */
  lemma {:induction false} ClassifiedIsFirstOf(counts: seq<PageCounts>, order: seq<nat>, cat: Category)
    requires InRange(order, |counts|)
    ensures Get(Classified(counts, order), cat) == FirstOf(counts, order, cat)
    decreases |order|
  {
    if order != [] {
      var init := order[..|order| - 1];
      var p := order[|order| - 1];
      assert order == init + [p];
      assert InRange(init, |counts|);
      ClassifiedIsFirstOf(counts, init, cat);
      FirstOfAppend(counts, init, p, cat);
    }
  }

  /** Math.min(imageRatio, 1) of totalImages / (totalImages + totalTextItems / 10 || 1). */
  function ImageRatio(totalImages: nat, totalTextItems: nat): real
  {
    var denominator := totalImages as real + totalTextItems as real / 10.0;
    MinReal(totalImages as real / (if denominator == 0.0 then 1.0 else denominator), 1.0)
  }

  /** The analysis of a document given its per-page counts and file size. */
  function AnalysisOf(counts: seq<PageCounts>, fileSize: nat): Analysis
  {
    SampleOrderInRange(|counts|);
    var order := SampleOrder(|counts|);
    var totalImages := SampledImages(counts, order);
    var totalTextItems := SampledTextItems(counts, order);
    var found := Classified(counts, order);
    var ratio := ImageRatio(totalImages, totalTextItems);
    Analysis(
      fileSize, |counts|, ratio, 1.0 - ratio,
      totalTextItems == 0 && totalImages > 0,
      Samples(found.text.GetOr(1), found.image.GetOr(1), found.mixed.GetOr(1)))
  }

  /** analyzePDF(pdf, file): visits the sampled pages, accumulating the totals
      and classifying pages, then builds the result record. */
  method Analyze(counts: seq<PageCounts>, fileSize: nat) returns (analysis: Analysis)
    ensures analysis == AnalysisOf(counts, fileSize)
  {
    var pageCount := |counts|;
    var totalImages := 0;
    var totalTextItems := 0;
    var samplePages := Candidates(None, None, None);

    var pagesToAnalyze := PagesToAnalyze(pageCount);
    SampleOrderInRange(pageCount);

    for k := 0 to |pagesToAnalyze|
      invariant InRange(pagesToAnalyze[..k], pageCount)
      invariant totalImages == SampledImages(counts, pagesToAnalyze[..k])
      invariant totalTextItems == SampledTextItems(counts, pagesToAnalyze[..k])
      invariant samplePages == Classified(counts, pagesToAnalyze[..k])
    {
      var pageNum := pagesToAnalyze[k];
      var page := counts[pageNum - 1];
      VisitStep(counts, pagesToAnalyze, k);
      totalImages := totalImages + page.imageCount;
      totalTextItems := totalTextItems + page.textItemCount;
      if samplePages.text.None? && page.textItemCount > 50 && page.imageCount == 0 {
        samplePages := samplePages.(text := Some(pageNum));
      } else if samplePages.image.None? && page.imageCount > 0 && page.textItemCount < 10 {
        samplePages := samplePages.(image := Some(pageNum));
      } else if samplePages.mixed.None? && page.imageCount > 0 && page.textItemCount > 20 {
        samplePages := samplePages.(mixed := Some(pageNum));
      }
    }
    assert pagesToAnalyze[..|pagesToAnalyze|] == pagesToAnalyze;
    ghost var expected := AnalysisOf(counts, fileSize);
    assert expected.imageRatio == ImageRatio(totalImages, totalTextItems);
    assert expected.isScanned == (totalTextItems == 0 && totalImages > 0);

    var samples := Samples(samplePages.text.GetOr(1), samplePages.image.GetOr(1), samplePages.mixed.GetOr(1));
    var ratio := ImageRatio(totalImages, totalTextItems);
    analysis := Analysis(fileSize, pageCount, ratio, 1.0 - ratio,
                         totalTextItems == 0 && totalImages > 0, samples);
  }

  // ----------------------------------------------------------------------
  // Properties of the analysis

  /** imageRatio and textRatio lie in [0, 1] and add up to 1; the ratio is 1
      exactly for a scanned document (no text item, some image), and 0 when
      no image was found. */
  lemma RatioFacts(totalImages: nat, totalTextItems: nat)
    ensures 0.0 <= ImageRatio(totalImages, totalTextItems) <= 1.0
    ensures ImageRatio(totalImages, totalTextItems) == 1.0 <==> totalTextItems == 0 && totalImages > 0
    ensures totalImages == 0 ==> ImageRatio(totalImages, totalTextItems) == 0.0
  {
    var i := totalImages as real;
    var d := i + totalTextItems as real / 10.0;
    if d != 0.0 {
      assert i <= d;
      assert i / d <= 1.0;
      if totalTextItems > 0 {
        assert i < d;
        assert i / d < 1.0;
      }
    }
  }

  lemma AnalysisRatios(counts: seq<PageCounts>, fileSize: nat)
    ensures var a := AnalysisOf(counts, fileSize);
      && 0.0 <= a.imageRatio <= 1.0 && 0.0 <= a.textRatio <= 1.0
      && a.imageRatio + a.textRatio == 1.0
      && (a.isScanned <==> a.imageRatio == 1.0)
  {
    SampleOrderInRange(|counts|);
    var order := SampleOrder(|counts|);
    RatioFacts(SampledImages(counts, order), SampledTextItems(counts, order));
  }

  /** Each representative page is the first visited page of its category,
      or page 1 when no visited page qualifies. */
  lemma AnalysisSamples(counts: seq<PageCounts>, fileSize: nat)
    ensures InRange(SampleOrder(|counts|), |counts|)
    ensures var a := AnalysisOf(counts, fileSize);
      var order := SampleOrder(|counts|);
      && a.samplePages.text == FirstOf(counts, order, TextCategory).GetOr(1)
      && a.samplePages.image == FirstOf(counts, order, ImageCategory).GetOr(1)
      && a.samplePages.mixed == FirstOf(counts, order, MixedCategory).GetOr(1)
  {
    SampleOrderInRange(|counts|);
    var order := SampleOrder(|counts|);
    ClassifiedIsFirstOf(counts, order, TextCategory);
    ClassifiedIsFirstOf(counts, order, ImageCategory);
    ClassifiedIsFirstOf(counts, order, MixedCategory);
  }

  /** A document without pages: nothing is sampled, every representative
      page is 1, the ratio is 0 and the document is not scanned. */
  lemma EmptyDocument(fileSize: nat)
    ensures AnalysisOf([], fileSize) == Analysis(fileSize, 0, 0.0, 1.0, false, Samples(1, 1, 1))
  {
    assert Probes(0) == [];
    assert SampleOrder(0) == [];
  }
}
