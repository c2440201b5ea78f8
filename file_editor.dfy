/** The page organiser of one file: its page list (the page configurations
    later handed to the merge), the page whose editor is open and the
    annotations saved per page id. */
module FileEditor {
  import opened Wrappers
  import opened JsNumber
  import opened Annotations
  import opened PdfAssembly

  /** What handleSave passes on. */
  datatype SaveRequest = SaveRequest(pages: seq<PageConfig>, annotations: map<string, seq<Annotation>>)

  /** (rotation + 90) % 360 */
  function QuarterTurn(rotation: int): (r: int)
    ensures rotation >= 0 ==> 0 <= r < 360
    ensures (rotation + 90 - r) % 360 == 0
  {
    JsRemWholeTurns(rotation + 90);
    JsRem(rotation + 90, 360)
  }

  /** A quarter turn of a rotation in [0, 360) without the remainder. */
  lemma QuarterTurnValue(rotation: int)
    requires 0 <= rotation < 360
    ensures QuarterTurn(rotation) == if rotation < 270 then rotation + 90 else rotation - 270
  {
  }

  /** Four quarter turns bring any rotation the page list can hold back to
      itself. */
  lemma FourQuarterTurns(rotation: int)
    requires 0 <= rotation < 360
    ensures QuarterTurn(QuarterTurn(QuarterTurn(QuarterTurn(rotation)))) == rotation
  {
    var r1 := QuarterTurn(rotation);
    QuarterTurnValue(rotation);
    var r2 := QuarterTurn(r1);
    QuarterTurnValue(r1);
    var r3 := QuarterTurn(r2);
    QuarterTurnValue(r2);
    QuarterTurnValue(r3);
  }

  /** prev.map(p => p.id === id ? { ...p, rotation: (p.rotation + 90) % 360 } : p) */
  function Rotated(items: seq<PageConfig>, id: string): (r: seq<PageConfig>)
    ensures |r| == |items|
    ensures forall i :: 0 <= i < |items| ==>
      r[i] == if items[i].id == id then items[i].(rotation := QuarterTurn(items[i].rotation)) else items[i]
  {
    seq(|items|, i requires 0 <= i < |items| =>
      if items[i].id == id then items[i].(rotation := QuarterTurn(items[i].rotation)) else items[i])
  }

  /** Rotating a page four times restores the page list. */
  lemma RotatedFourTimes(items: seq<PageConfig>, id: string)
    requires forall i :: 0 <= i < |items| && items[i].id == id ==> 0 <= items[i].rotation < 360
    ensures Rotated(Rotated(Rotated(Rotated(items, id), id), id), id) == items
  {
    var r := Rotated(Rotated(Rotated(Rotated(items, id), id), id), id);
    forall i | 0 <= i < |items|
      ensures r[i] == items[i]
    {
      if items[i].id == id {
        FourQuarterTurns(items[i].rotation);
      }
    }
  }

  /** items.findIndex(i => i.id === id) */
  function FindIndex(items: seq<PageConfig>, id: string): (k: int)
    ensures -1 <= k < |items|
    ensures k == -1 <==> forall j :: 0 <= j < |items| ==> items[j].id != id
    ensures k >= 0 ==> items[k].id == id && forall j :: 0 <= j < k ==> items[j].id != id
  {
    if items == [] then -1
    else if items[0].id == id then 0
    else
      var k := FindIndex(items[1..], id);
      assert forall j :: 1 <= j < |items| ==> items[j] == items[1..][j - 1];
      if k < 0 then -1 else k + 1
  }

  /** arrayMove: take the element at `from` out and insert it at `to`. */
  function ArrayMove<T>(s: seq<T>, from: nat, to: nat): (r: seq<T>)
    requires from < |s| && to < |s|
    ensures |r| == |s| && r[to] == s[from]
    ensures r[..to] + r[to + 1..] == s[..from] + s[from + 1..]
  {
    var rest := s[..from] + s[from + 1..];
    var r := rest[..to] + [s[from]] + rest[to..];
    assert r[..to] == rest[..to];
    assert r[to + 1..] == rest[to..];
    r
  }

  /** Moving is a permutation. */
  lemma ArrayMovePermutes<T>(s: seq<T>, from: nat, to: nat)
    requires from < |s| && to < |s|
    ensures multiset(ArrayMove(s, from, to)) == multiset(s)
  {
    var r := ArrayMove(s, from, to);
    assert r == r[..to] + [r[to]] + r[to + 1..];
    assert s == s[..from] + [s[from]] + s[from + 1..];
    calc {
      multiset(r);
      multiset(r[..to]) + multiset{s[from]} + multiset(r[to + 1..]);
      multiset(r[..to] + r[to + 1..]) + multiset{s[from]};
      multiset(s[..from] + s[from + 1..]) + multiset{s[from]};
      multiset(s);
    }
  }

  /** Moving the element back restores the list. */
  lemma ArrayMoveBack<T>(s: seq<T>, from: nat, to: nat)
    requires from < |s| && to < |s|
    ensures ArrayMove(ArrayMove(s, from, to), to, from) == s
  {
    var r := ArrayMove(s, from, to);
    var rest := r[..to] + r[to + 1..];
    assert rest == s[..from] + s[from + 1..];
    assert rest[..from] == s[..from];
    assert rest[from..] == s[from + 1..];
    assert s == s[..from] + [s[from]] + s[from + 1..];
  }

  /** An index as arrayMove's two splice calls read it: -1 counts from the
      end of the list. */
  function SpliceIndex(k: int, length: nat): (i: nat)
    requires 0 < length && -1 <= k < length
    ensures i < length
  {
    if k < 0 then length - 1 else k
  }

  /** prev.filter(p => p.id !== id) */
  function WithoutId(items: seq<PageConfig>, id: string): (r: seq<PageConfig>)
    ensures |r| <= |items|
  {
    if items == [] then []
    else
      var last := items[|items| - 1];
      WithoutId(items[..|items| - 1], id) + (if last.id == id then [] else [last])
  }

  /** Exactly the pages without the id remain, and none is added. */
  lemma {:induction false} WithoutIdKeeps(items: seq<PageConfig>, id: string)
    ensures forall p :: p in WithoutId(items, id) <==> p in items && p.id != id
    ensures multiset(WithoutId(items, id)) <= multiset(items)
  {
    if items != [] {
      var init := items[..|items| - 1];
      var last := items[|items| - 1];
      WithoutIdKeeps(init, id);
      assert items == init + [last];
    }
  }

  /** The remaining pages keep their order: removing from a concatenation
      removes from each part, and a single page stays exactly when it has
      another id. Together these fix the result page by page. */
  lemma {:induction false} WithoutIdConcat(a: seq<PageConfig>, b: seq<PageConfig>, p: PageConfig, id: string)
    ensures WithoutId(a + b, id) == WithoutId(a, id) + WithoutId(b, id)
    ensures WithoutId([p], id) == if p.id == id then [] else [p]
    decreases |b|
  {
    assert [p][..0] == [];
    if b == [] {
      assert a + b == a;
    } else {
      var init := b[..|b| - 1];
      var last := b[|b| - 1];
      WithoutIdConcat(a, init, p, id);
      assert (a + b)[..|a + b| - 1] == a + init;
      assert (a + b)[|a + b| - 1] == last;
      calc {
        WithoutId(a + b, id);
        WithoutId(a + init, id) + (if last.id == id then [] else [last]);
        WithoutId(a, id) + WithoutId(init, id) + (if last.id == id then [] else [last]);
        WithoutId(a, id) + (WithoutId(init, id) + (if last.id == id then [] else [last]));
        WithoutId(a, id) + WithoutId(b, id);
      }
    }
  }

  /** Removing an id no page has leaves the list as it was. */
  lemma {:induction false} WithoutAbsentId(items: seq<PageConfig>, id: string)
    requires forall i :: 0 <= i < |items| ==> items[i].id != id
    ensures WithoutId(items, id) == items
  {
    if items != [] {
      WithoutAbsentId(items[..|items| - 1], id);
      assert items == items[..|items| - 1] + [items[|items| - 1]];
    }
  }

  /** The annotations the page editor opens with: pageAnnotations[id] || []. */
  function InitialAnnotations(annotations: map<string, seq<Annotation>>, id: string): (anns: seq<Annotation>)
    ensures id !in annotations ==> anns == []
  {
    if id in annotations then annotations[id] else []
  }

  class Organizer {
    var items: seq<PageConfig>
    var activePageId: Option<string>
    var pageAnnotations: map<string, seq<Annotation>>

    constructor (pages: seq<PageConfig>)
      ensures items == pages && activePageId.None? && pageAnnotations == map[]
    {
      items := pages;
      activePageId := None;
      pageAnnotations := map[];
    }

    /** handleDragEnd: a move when the drag ends over another page. */
    method HandleDragEnd(activeId: Option<string>, overId: Option<string>)
      modifies this
      ensures activePageId == old(activePageId) && pageAnnotations == old(pageAnnotations)
      ensures activeId.None? || overId.None? || activeId == overId || old(items) == [] ==> items == old(items)
      ensures activeId.Some? && overId.Some? && activeId != overId && old(items) != [] ==>
        var n := |old(items)|;
        items == ArrayMove(old(items), SpliceIndex(FindIndex(old(items), activeId.value), n),
                           SpliceIndex(FindIndex(old(items), overId.value), n))
      ensures multiset(items) == multiset(old(items))
    {
      if activeId.Some? && overId.Some? && activeId.value != overId.value && items != [] {
        var oldIndex := FindIndex(items, activeId.value);
        var newIndex := FindIndex(items, overId.value);
        var from := SpliceIndex(oldIndex, |items|);
        var to := SpliceIndex(newIndex, |items|);
        ArrayMovePermutes(items, from, to);
        items := ArrayMove(items, from, to);
      }
    }

    method HandleRotate(id: string)
      modifies this
      ensures items == Rotated(old(items), id)
      ensures activePageId == old(activePageId) && pageAnnotations == old(pageAnnotations)
    {
      items := Rotated(items, id);
    }

    /** handleRemove; `confirmed` is the answer to the confirmation dialog. */
    method HandleRemove(id: string, confirmed: bool)
      modifies this
      ensures !confirmed ==> items == old(items) && activePageId == old(activePageId) && pageAnnotations == old(pageAnnotations)
      ensures confirmed ==>
        && items == WithoutId(old(items), id)
        && pageAnnotations == old(pageAnnotations) - {id}
        && activePageId == (if old(activePageId) == Some(id) then None else old(activePageId))
    {
      if confirmed {
        pageAnnotations := pageAnnotations - {id};
        items := WithoutId(items, id);
        if activePageId == Some(id) {
          activePageId := None;
        }
      }
    }

    method HandleSaveAnnotations(pageId: string, annotations: seq<Annotation>)
      modifies this
      ensures pageAnnotations == old(pageAnnotations)[pageId := annotations]
      ensures InitialAnnotations(pageAnnotations, pageId) == annotations
      ensures forall k :: k != pageId ==> InitialAnnotations(pageAnnotations, k) == InitialAnnotations(old(pageAnnotations), k)
      ensures items == old(items) && activePageId == old(activePageId)
    {
      pageAnnotations := pageAnnotations[pageId := annotations];
    }

    method HandleSave() returns (saved: SaveRequest)
      ensures saved.pages == items && saved.annotations == pageAnnotations
    {
      saved := SaveRequest(items, pageAnnotations);
    }
  }
}
