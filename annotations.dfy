/** The annotations the page editor records and the merge draws. Editor
    coordinates are pixels of the preview image, origin at the top left. */
module Annotations {
  import opened Wrappers

  datatype Point = Point(x: real, y: real)

  /** The preview image size recorded with an annotation (imgDims?.width,
      imgDims?.height); None while the preview had not loaded. An
      annotation without a meta record reads as Meta(None, None). */
  datatype Meta = Meta(width: Option<real>, height: Option<real>)

  /** The four shapes of an annotation, by its `type` field; any other
      `type` is OtherAnn. */
  datatype Annotation =
    | PathAnn(tool: string, color: string, width: real, opacity: real, points: seq<Point>, meta: Meta)
    | TextAnn(x: real, y: real, text: string, size: real, color: string, meta: Meta)
    | ImageAnn(x: real, y: real, width: real, height: real, dataUrl: string, meta: Meta)
    | OtherAnn
}
