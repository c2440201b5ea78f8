/** The single-page annotation editor: a bounded undo/redo history of
    annotation lists, the zoom level, the eraser and delete filters, the
    highlighter's snap to a text line, text entry and the colour palette
    that follows the active tool. */
module PageEditor {
  import opened Wrappers
  import opened JsNumber
  import opened Annotations
  import opened PdfRender

  const MaxHistory: nat := 50

  datatype Tool = Select | TextTool | Pen | Highlight | ImageTool | Erase

  const Black: string := "#000000"
  const PenPalette: seq<string> := [Black, "#ef4444", "#3b82f6", "#22c55e"]
  const Yellow: string := "#facc15"
  const HighlightPalette: seq<string> := [Yellow, "#4ade80", "#22d3ee", "#f472b6", "#fb923c"]

  /** The natural size of the rendered preview image. */
  datatype Dims = Dims(width: real, height: real)

  /** The open text box: where it was placed and what has been typed. */
  datatype TextInput = TextInput(x: real, y: real, value: string, fontSize: real, color: string)

  /** A highlighter snap: the centre line and the stroke width. */
  datatype Snap = Snap(y: real, height: real)

  // ---------------------------------------------------------------------
  // History

  /** history.slice(0, historyIndex + 1), push, then keep the newest
      MaxHistory entries. */
  function PushHistory(history: seq<seq<Annotation>>, index: nat, added: seq<Annotation>): (h: seq<seq<Annotation>>)
    requires index < |history|
    ensures |h| == MinInt(index + 2, MaxHistory)
    ensures 1 <= |h| <= MaxHistory
    ensures h[|h| - 1] == added
    ensures forall j :: 0 <= j < |h| - 1 ==> h[j] == history[index + 2 - |h| + j]
  {
    var pushed := history[..index + 1] + [added];
    if |pushed| > MaxHistory then pushed[|pushed| - MaxHistory..] else pushed
  }

  function UndoIndex(index: nat): (i: nat)
    ensures i <= index && (index > 0 ==> i == index - 1)
  {
    if index > 0 then index - 1 else index
  }

  function RedoIndex(index: nat, length: nat): (i: nat)
    ensures index < length ==> index <= i < length
    ensures i == index || i == index + 1
  {
    if index + 1 < length then index + 1 else index
  }

  /** An undo right after a push shows the list that was current before it:
      trimming never drops the entry just below the new one. */
  lemma UndoAfterPush(history: seq<seq<Annotation>>, index: nat, added: seq<Annotation>)
    requires index < |history|
    ensures var h := PushHistory(history, index, added);
      |h| >= 2 && h[UndoIndex(|h| - 1)] == history[index]
  {
  }

  /** Redo undoes an undo, and undo undoes a redo. */
  lemma UndoRedoInverse(index: nat, length: nat)
    ensures 0 < index < length ==> RedoIndex(UndoIndex(index), length) == index
    ensures index + 1 < length ==> UndoIndex(RedoIndex(index, length)) == index
  {
  }

  // ---------------------------------------------------------------------
  // Zoom

  function ZoomedIn(s: real): (r: real)
    ensures r <= 3.0 && (s + 0.1 <= 3.0 ==> r == s + 0.1) && (s <= 3.0 ==> s <= r)
  {
    MinReal(s + 0.1, 3.0)
  }

  function ZoomedOut(s: real): (r: real)
    ensures r >= 0.5 && (s - 0.1 >= 0.5 ==> r == s - 0.1) && (s >= 0.5 ==> r <= s)
  {
    MaxReal(s - 0.1, 0.5)
  }

  /** Away from the clamps, zooming out undoes zooming in and back. */
  lemma ZoomRoundTrip(s: real)
    requires 0.6 <= s <= 2.9
    ensures ZoomedOut(ZoomedIn(s)) == s && ZoomedIn(ZoomedOut(s)) == s
  {
  }

  // ---------------------------------------------------------------------
  // Eraser

  /** Math.hypot(p.x - x, p.y - y) < threshold, on squared distances. */
  predicate Near(p: Point, x: real, y: real, threshold: real)
  {
    threshold > 0.0 && (p.x - x) * (p.x - x) + (p.y - y) * (p.y - y) < threshold * threshold
  }

  /** Whether the eraser at (x, y) removes the annotation. */
  predicate Hit(ann: Annotation, x: real, y: real, threshold: real)
  {
    match ann
    case PathAnn(_, _, _, _, points, _) => exists k :: 0 <= k < |points| && Near(points[k], x, y, threshold)
    case ImageAnn(ax, ay, w, h, _, _) => x >= ax && x <= ax + w && y >= ay && y <= ay + h
    case TextAnn(ax, ay, text, size, _, _) =>
      var approxWidth := |text| as real * (size * 0.6);
      x >= ax && x <= ax + approxWidth && y >= ay - size && y <= ay
    case OtherAnn => false
  }

  /** s.filter(a => !drop(a)) */
  function Filtered<T>(s: seq<T>, drop: T -> bool): (r: seq<T>)
    ensures |r| <= |s|
  {
    if s == [] then []
    else Filtered(s[..|s| - 1], drop) + (if drop(s[|s| - 1]) then [] else [s[|s| - 1]])
  }

  /** Exactly the elements that are not dropped are kept. */
  lemma {:induction false} FilteredMembers<T>(s: seq<T>, drop: T -> bool)
    ensures forall a :: a in Filtered(s, drop) ==> a in s && !drop(a)
    ensures forall i :: 0 <= i < |s| && !drop(s[i]) ==> s[i] in Filtered(s, drop)
  {
    if s != [] {
      var init := s[..|s| - 1];
      FilteredMembers(init, drop);
      assert forall i :: 0 <= i < |init| ==> init[i] == s[i];
    }
  }

  /** A single element is kept exactly when it is not dropped. */
  lemma FilteredSingleton<T>(x: T, drop: T -> bool)
    ensures Filtered([x], drop) == if drop(x) then [] else [x]
  {
    assert [x][..0] == [];
  }

  /** The kept elements stay in their order: filtering a concatenation
      filters each part. With FilteredSingleton this fixes the result
      element by element, counts included. */
  lemma {:induction false} FilteredConcat<T>(a: seq<T>, b: seq<T>, drop: T -> bool)
    ensures Filtered(a + b, drop) == Filtered(a, drop) + Filtered(b, drop)
    decreases |b|
  {
    if b == [] {
      assert a + b == a;
    } else {
      var init := b[..|b| - 1];
      var last := b[|b| - 1];
      var tail := if drop(last) then [] else [last];
      FilteredConcat(a, init, drop);
      assert (a + b)[..|a + b| - 1] == a + init;
      assert (a + b)[|a + b| - 1] == last;
      calc {
        Filtered(a + b, drop);
        Filtered(a + init, drop) + tail;
        Filtered(a, drop) + Filtered(init, drop) + tail;
        Filtered(a, drop) + (Filtered(init, drop) + tail);
        Filtered(a, drop) + Filtered(b, drop);
      }
    }
  }

  /** A filter removes something exactly when it drops an element, and
      returns the list itself when it drops none. */
  lemma {:induction false} FilteredShrinks<T>(s: seq<T>, drop: T -> bool)
    ensures (forall i :: 0 <= i < |s| ==> !drop(s[i])) ==> Filtered(s, drop) == s
    ensures (exists i :: 0 <= i < |s| && drop(s[i])) ==> |Filtered(s, drop)| < |s|
  {
    if s != [] {
      var init := s[..|s| - 1];
      FilteredShrinks(init, drop);
      if exists i :: 0 <= i < |s| && drop(s[i]) {
        var i :| 0 <= i < |s| && drop(s[i]);
        if i < |s| - 1 {
          assert init[i] == s[i];
        }
      } else {
        assert forall i :: 0 <= i < |init| ==> init[i] == s[i];
      }
    }
  }

  /** annotations.filter(ann => !hit) */
  function Remaining(anns: seq<Annotation>, x: real, y: real, threshold: real): (r: seq<Annotation>)
    ensures |r| <= |anns|
    ensures forall a :: a in r ==> a in anns && !Hit(a, x, y, threshold)
    ensures forall i :: 0 <= i < |anns| && !Hit(anns[i], x, y, threshold) ==> anns[i] in r
  {
    FilteredMembers(anns, ann => Hit(ann, x, y, threshold));
    Filtered(anns, ann => Hit(ann, x, y, threshold))
  }

  /** The eraser keeps the order of what it leaves: erasing from a
      concatenation erases from each part. */
  lemma RemainingInOrder(a: seq<Annotation>, b: seq<Annotation>, ann: Annotation, x: real, y: real, threshold: real)
    ensures Remaining(a + b, x, y, threshold) == Remaining(a, x, y, threshold) + Remaining(b, x, y, threshold)
    ensures Remaining([ann], x, y, threshold) == if Hit(ann, x, y, threshold) then [] else [ann]
  {
    FilteredConcat(a, b, ann => Hit(ann, x, y, threshold));
    FilteredSingleton(ann, ann => Hit(ann, x, y, threshold));
  }

  /** The eraser removes something exactly when it hits something, and
      returns the list itself when it hits nothing. */
  lemma RemainingShrinks(anns: seq<Annotation>, x: real, y: real, threshold: real)
    ensures (forall i :: 0 <= i < |anns| ==> !Hit(anns[i], x, y, threshold)) ==> Remaining(anns, x, y, threshold) == anns
    ensures (exists i :: 0 <= i < |anns| && Hit(anns[i], x, y, threshold)) ==> |Remaining(anns, x, y, threshold)| < |anns|
  {
    FilteredShrinks(anns, ann => Hit(ann, x, y, threshold));
  }

  // ---------------------------------------------------------------------
  // Delete

  /** annotations.filter((_, i) => i !== index) */
  function WithoutIndex(anns: seq<Annotation>, index: int): (r: seq<Annotation>)
    ensures !(0 <= index < |anns|) ==> r == anns
    ensures 0 <= index < |anns| ==>
      && |r| == |anns| - 1
      && (forall j :: 0 <= j < index ==> r[j] == anns[j])
      && (forall j :: index <= j < |r| ==> r[j] == anns[j + 1])
  {
    if anns == [] then []
    else
      var n := |anns| - 1;
      var r := WithoutIndex(anns[..n], index) + (if n == index then [] else [anns[n]]);
      assert !(0 <= index < n) ==> WithoutIndex(anns[..n], index) == anns[..n];
      r
  }

  // ---------------------------------------------------------------------
  // Text snap

  /** The item's box in preview pixels, widened by 12 above and below and by
      100 on either side, contains (x, y). */
  predicate Grabs(item: TextEntry, factor: real, x: real, y: real)
  {
    var top := item.y * factor;
    var height := item.height * factor;
    var left := item.x * factor;
    var right := left + item.width * factor;
    y >= top - 12.0 && y <= top + height + 12.0 && x >= left - 100.0 && x <= right + 100.0
  }

  function SnapOf(item: TextEntry, factor: real): Snap
  {
    Snap(item.y * factor + item.height * factor / 2.0, item.height * factor * 1.5)
  }

  /** The index of the first item that grabs (x, y), -1 if none does. */
  function FirstGrab(items: seq<TextEntry>, factor: real, x: real, y: real): (k: int)
    ensures -1 <= k < |items|
    ensures k == -1 <==> forall j :: 0 <= j < |items| ==> !Grabs(items[j], factor, x, y)
    ensures k >= 0 ==> Grabs(items[k], factor, x, y) && forall j :: 0 <= j < k ==> !Grabs(items[j], factor, x, y)
  {
    if items == [] then -1
    else if Grabs(items[0], factor, x, y) then 0
    else
      var k := FirstGrab(items[1..], factor, x, y);
      assert forall j :: 1 <= j < |items| ==> items[j] == items[1..][j - 1];
      if k < 0 then -1 else k + 1
  }

  /** findTextSnap: nothing without text items or a loaded preview; the
      scale factor is taken from the first item's viewport. */
  function TextSnap(items: seq<TextEntry>, imgDims: Option<Dims>, x: real, y: real): Option<Snap>
  {
    if |items| == 0 || imgDims.None? then None
    else
      var factor := imgDims.value.height / items[0].viewportHeight;
      var k := FirstGrab(items, factor, x, y);
      if k < 0 then None else Some(SnapOf(items[k], factor))
  }

  // ---------------------------------------------------------------------
  // Palette

  /** The colour after the tool-change effect. */
  function PaletteColor(tool: Tool, color: string): (c: string)
    ensures tool == Highlight ==> c in HighlightPalette && (color in HighlightPalette <==> c == color)
    ensures (tool == Pen || tool == TextTool) ==> c in PenPalette && (color in PenPalette <==> c == color)
    ensures (tool == Highlight && color !in HighlightPalette) ==> c == Yellow
    ensures ((tool == Pen || tool == TextTool) && color !in PenPalette) ==> c == Black
    ensures tool != Highlight && tool != Pen && tool != TextTool ==> c == color
  {
    if tool == Highlight then (if color in HighlightPalette then color else Yellow)
    else if tool == Pen || tool == TextTool then (if color in PenPalette then color else Black)
    else color
  }

  /** Running the effect a second time changes nothing. */
  lemma PaletteIdempotent(tool: Tool, color: string)
    ensures PaletteColor(tool, PaletteColor(tool, color)) == PaletteColor(tool, color)
  {
  }

  /** The meta record stored with a new annotation. */
  function MetaOf(imgDims: Option<Dims>): (m: Meta)
    ensures imgDims.None? <==> m == Meta(None, None)
  {
    match imgDims
    case None => Meta(None, None)
    case Some(d) => Meta(Some(d.width), Some(d.height))
  }

  class Editor {
    var history: seq<seq<Annotation>>
    var historyIndex: nat
    var scale: real
    var activeTool: Tool
    var activeColor: string
    var textInput: Option<TextInput>
    var imgDims: Option<Dims>
    var textItems: seq<TextEntry>

    predicate Valid()
      reads this
    {
      1 <= |history| <= MaxHistory && historyIndex < |history| && 0.5 <= scale <= 3.0
    }

    /** The annotations on screen: history[historyIndex]. */
    function Current(): seq<Annotation>
      requires Valid()
      reads this
    {
      history[historyIndex]
    }

    constructor (initialAnnotations: seq<Annotation>)
      ensures Valid()
      ensures history == [initialAnnotations] && historyIndex == 0 && scale == 1.0
      ensures activeTool == Select && activeColor == Black && textInput.None? && imgDims.None? && textItems == []
    {
      history := [initialAnnotations];
      historyIndex := 0;
      scale := 1.0;
      activeTool := Select;
      activeColor := Black;
      textInput := None;
      imgDims := None;
      textItems := [];
    }

    method AddToHistory(added: seq<Annotation>)
      requires Valid()
      modifies this
      ensures Valid()
      ensures history == PushHistory(old(history), old(historyIndex), added)
      ensures historyIndex == |history| - 1 && Current() == added
      ensures scale == old(scale) && activeTool == old(activeTool) && activeColor == old(activeColor)
      ensures textInput == old(textInput) && imgDims == old(imgDims) && textItems == old(textItems)
    {
      var newHistory := history[..historyIndex + 1];
      newHistory := newHistory + [added];
      if |newHistory| > MaxHistory {
        newHistory := newHistory[|newHistory| - MaxHistory..];
      }
      history := newHistory;
      historyIndex := |newHistory| - 1;
    }

    method Undo()
      requires Valid()
      modifies this
      ensures Valid()
      ensures historyIndex == UndoIndex(old(historyIndex))
      ensures history == old(history) && scale == old(scale) && activeTool == old(activeTool) && activeColor == old(activeColor)
      ensures textInput == old(textInput) && imgDims == old(imgDims) && textItems == old(textItems)
    {
      if historyIndex > 0 {
        historyIndex := historyIndex - 1;
      }
    }

    method Redo()
      requires Valid()
      modifies this
      ensures Valid()
      ensures historyIndex == RedoIndex(old(historyIndex), |history|)
      ensures history == old(history) && scale == old(scale) && activeTool == old(activeTool) && activeColor == old(activeColor)
      ensures textInput == old(textInput) && imgDims == old(imgDims) && textItems == old(textItems)
    {
      if historyIndex < |history| - 1 {
        historyIndex := historyIndex + 1;
      }
    }

    method ZoomIn()
      requires Valid()
      modifies this
      ensures Valid()
      ensures scale == ZoomedIn(old(scale))
      ensures history == old(history) && historyIndex == old(historyIndex) && activeTool == old(activeTool) && activeColor == old(activeColor)
      ensures textInput == old(textInput) && imgDims == old(imgDims) && textItems == old(textItems)
    {
      scale := MinReal(scale + 0.1, 3.0);
    }

    method ZoomOut()
      requires Valid()
      modifies this
      ensures Valid()
      ensures scale == ZoomedOut(old(scale))
      ensures history == old(history) && historyIndex == old(historyIndex) && activeTool == old(activeTool) && activeColor == old(activeColor)
      ensures textInput == old(textInput) && imgDims == old(imgDims) && textItems == old(textItems)
    {
      scale := MaxReal(scale - 0.1, 0.5);
    }

    /** eraseAt: the eraser radius is 10 preview pixels at the current zoom. */
    method EraseAt(x: real, y: real)
      requires Valid()
      modifies this
      ensures Valid()
      ensures var remaining := Remaining(old(Current()), x, y, 10.0 / old(scale));
        if |remaining| != |old(Current())|
        then history == PushHistory(old(history), old(historyIndex), remaining) && historyIndex == |history| - 1
        else history == old(history) && historyIndex == old(historyIndex)
      ensures scale == old(scale) && activeTool == old(activeTool) && activeColor == old(activeColor)
      ensures textInput == old(textInput) && imgDims == old(imgDims) && textItems == old(textItems)
    {
      var threshold := 10.0 / scale;
      var remaining := Remaining(Current(), x, y, threshold);
      if |remaining| != |Current()| {
        AddToHistory(remaining);
      }
    }

    method DeleteAnnotation(index: int)
      requires Valid()
      modifies this
      ensures Valid()
      ensures history == PushHistory(old(history), old(historyIndex), WithoutIndex(old(Current()), index))
      ensures historyIndex == |history| - 1
      ensures scale == old(scale) && activeTool == old(activeTool) && activeColor == old(activeColor)
      ensures textInput == old(textInput) && imgDims == old(imgDims) && textItems == old(textItems)
    {
      AddToHistory(WithoutIndex(Current(), index));
    }

    /** findTextSnap over the page's text items, first match wins. */
    method FindTextSnap(x: real, y: real) returns (snap: Option<Snap>)
      ensures snap == TextSnap(textItems, imgDims, x, y)
    {
      if |textItems| == 0 || imgDims.None? {
        return None;
      }
      var factor := imgDims.value.height / textItems[0].viewportHeight;
      var i := 0;
      while i < |textItems|
        invariant 0 <= i <= |textItems|
        invariant forall j :: 0 <= j < i ==> !Grabs(textItems[j], factor, x, y)
      {
        if Grabs(textItems[i], factor, x, y) {
          return Some(SnapOf(textItems[i], factor));
        }
        i := i + 1;
      }
      return None;
    }

    /** handleTextComplete */
    method TextComplete()
      requires Valid()
      modifies this
      ensures Valid()
      ensures textInput.None?
      ensures old(textInput).Some? && !IsBlank(old(textInput).value.value) ==>
        var t := old(textInput).value;
        history == PushHistory(old(history), old(historyIndex),
                               old(Current()) + [TextAnn(t.x, t.y, t.value, t.fontSize, t.color, MetaOf(old(imgDims)))])
        && historyIndex == |history| - 1
      ensures !(old(textInput).Some? && !IsBlank(old(textInput).value.value)) ==>
        history == old(history) && historyIndex == old(historyIndex)
      ensures scale == old(scale) && activeTool == old(activeTool) && activeColor == old(activeColor)
      ensures imgDims == old(imgDims) && textItems == old(textItems)
    {
      if textInput.Some? && !IsBlank(textInput.value.value) {
        var t := textInput.value;
        AddToHistory(Current() + [TextAnn(t.x, t.y, t.value, t.fontSize, t.color, MetaOf(imgDims))]);
      }
      textInput := None;
    }

    /** setActiveTool followed by the effect that runs when the tool changes. */
    method SetTool(tool: Tool)
      requires Valid()
      modifies this
      ensures Valid()
      ensures activeTool == tool
      ensures activeColor == if tool == old(activeTool) then old(activeColor) else PaletteColor(tool, old(activeColor))
      ensures history == old(history) && historyIndex == old(historyIndex) && scale == old(scale)
      ensures textInput == old(textInput) && imgDims == old(imgDims) && textItems == old(textItems)
    {
      if tool != activeTool {
        activeTool := tool;
        activeColor := PaletteColor(tool, activeColor);
      }
    }
  }
}
