/**
 * Values shared by the viewer variants: sizes, points, the loaded bitmap,
 * the origin of a button press, and the scale defaults.
 */
module ViewerTypes {

  datatype Size = Size(width: real, height: real)
  datatype Point = Point(x: real, y: real)
  datatype Rect = Rect(left: real, top: real, width: real, height: real)

  /** The decoded bitmap, once an image path has been set. */
  datatype Bitmap = NoImage | Bitmap(pixelWidth: nat, pixelHeight: nat)

  /** The template part a left button press originated from. */
  datatype EventSource = CanvasPart | ScrollViewerPart | OtherElement

  /** A value that may be absent. */
  datatype Option<T> = None | Some(value: T)

  const DefaultMinimumScale: real := 1.0
  const DefaultMaximumScale: real := 5000.0
  const DefaultScale: real := 100.0

  /** A press starts a pan only on the canvas or on the scroll viewer itself. */
  predicate StartsPan(source: EventSource) {
    source == CanvasPart || source == ScrollViewerPart
  }

  /** The size of the host at a scale given in percent. */
  function HostExtent(pixelWidth: nat, pixelHeight: nat, scale: real): (h: Size)
    requires scale > 0.0
    ensures pixelWidth > 0 && pixelHeight > 0 ==> h.width > 0.0 && h.height > 0.0
    ensures h.width * 100.0 == pixelWidth as real * scale
    ensures h.height * 100.0 == pixelHeight as real * scale
  {
    Size(pixelWidth as real * scale / 100.0, pixelHeight as real * scale / 100.0)
  }
}
