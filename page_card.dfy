/** The page thumbnail's fit scale: a quarter-turned thumbnail is shrunk so
    that its long side fits where the short side was. */
module PageCard {
  import opened Wrappers
  import opened JsNumber
  import opened PdfModel

  /** The natural size of a loaded thumbnail image. */
  datatype ImageDims = ImageDims(width: PosReal, height: PosReal)

  /** getScale */
  function GetScale(imageDims: Option<ImageDims>, rotation: int): (s: real)
    ensures imageDims.None? || JsRem(rotation, 180) == 0 ==> s == 1.0
    ensures 0.0 < s <= 1.0
    ensures imageDims.Some? && JsRem(rotation, 180) != 0 ==>
      var w := imageDims.value.width;
      var h := imageDims.value.height;
      s * MaxReal(w, h) == MinReal(w, h) && (s < 1.0 <==> w != h)
  {
    if imageDims.None? || JsRem(rotation, 180) == 0 then 1.0
    else
      var w := imageDims.value.width;
      var h := imageDims.value.height;
      if w == h then 1.0
      else ShorterOverLonger(w, h)
  }

  /** Math.min(width / height, height / width) for unequal sides. */
  function ShorterOverLonger(w: PosReal, h: PosReal): (s: real)
    requires w != h
    ensures 0.0 < s < 1.0
    ensures s * MaxReal(w, h) == MinReal(w, h)
  {
    if w < h then
      QuotientsOfUnequal(w, h);
      MinReal(w / h, h / w)
    else
      QuotientsOfUnequal(h, w);
      MinReal(w / h, h / w)
  }

  lemma QuotientsOfUnequal(a: PosReal, b: PosReal)
    requires a < b
    ensures 0.0 < a / b < 1.0 < b / a && (a / b) * b == a
  {
    var q := a / b;
    assert q * b == a;
    assert (1.0 - q) * b == b - a;
    SignOfProduct(1.0 - q, b);
    var p := b / a;
    assert p * a == b;
    assert (p - 1.0) * a == b - a;
    SignOfProduct(p - 1.0, a);
  }

  lemma SignOfProduct(x: real, y: PosReal)
    ensures x <= 0.0 ==> x * y <= 0.0
  {
  }

  /** Swapping width and height gives the same scale. */
  lemma ScaleSymmetric(w: PosReal, h: PosReal, rotation: int)
    ensures GetScale(Some(ImageDims(w, h)), rotation) == GetScale(Some(ImageDims(h, w)), rotation)
  {
  }
}
