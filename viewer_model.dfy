/**
 * The state of the templated ImageViewer control and how each of its
 * handlers transforms it, as pure functions over a snapshot of that state.
 * Layout values that WPF computes (viewport size, preview canvas size) are
 * part of the snapshot and no handler changes them; scroll offsets are the
 * offsets the control requests.
 */
module ViewerModel {
  import opened Magnitude
  import opened ScaleStep
  import opened ViewerTypes

  datatype ViewerState = ViewerState(
    scale: real,
    minimumScale: real,
    maximumScale: real,
    image: Bitmap,
    host: Size,            // PART_Host Width and Height
    offset: Point,         // scroll viewer horizontal and vertical offset
    viewport: Size,        // scroll viewer viewport, supplied by layout
    previewCanvas: Size,   // preview canvas actual size, supplied by layout
    previewVisible: bool,
    preview: Rect,         // the preview rectangle's Canvas.Left/Top, Width, Height
    prevPoint: Point,
    isTranslate: bool)

  /** Scale is positive, and once an image is loaded the host matches it. */
  ghost predicate Inv(st: ViewerState) {
    && st.scale > 0.0
    && (st.image.Bitmap? ==>
          && st.image.pixelWidth > 0 && st.image.pixelHeight > 0
          && st.host == HostExtent(st.image.pixelWidth, st.image.pixelHeight, st.scale))
  }

  function Initial(viewport: Size, previewCanvas: Size): (st: ViewerState)
    ensures Inv(st)
    ensures st.scale == 100.0 && st.minimumScale == 1.0 && st.maximumScale == 5000.0
    ensures st.image == NoImage && !st.isTranslate
  {
    ViewerState(DefaultScale, DefaultMinimumScale, DefaultMaximumScale, NoImage,
                Size(0.0, 0.0), Point(0.0, 0.0), viewport, previewCanvas,
                false, Rect(0.0, 0.0, 0.0, 0.0), Point(0.0, 0.0), false)
  }

  /** One axis of the preview mapping: where a span of the host lands on the canvas. */
  datatype Span = Span(start: real, length: real)

  function MapSpan(canvas: real, host: real, offset: real, length: real): (s: Span)
    requires host > 0.0
    ensures s.start * host == canvas * offset
    ensures s.length * host == canvas * length
  {
    var start := canvas * offset / host;
    var end := canvas * (offset + length) / host;
    Span(start, end - start)
  }

  /**
   * DrawPreviewRectangle's mapping: offset and viewport of the host, mapped
   * proportionally onto the preview canvas, one axis at a time.
   */
  function PreviewRectangle(canvas: Size, host: Size, offset: Point, viewport: Size): (r: Rect)
    requires host.width > 0.0 && host.height > 0.0
    ensures r.left * host.width == canvas.width * offset.x
    ensures r.top * host.height == canvas.height * offset.y
    ensures r.width * host.width == canvas.width * viewport.width
    ensures r.height * host.height == canvas.height * viewport.height
  {
    var h := MapSpan(canvas.width, host.width, offset.x, viewport.width);
    var v := MapSpan(canvas.height, host.height, offset.y, viewport.height);
    Rect(h.start, v.start, h.length, v.length)
  }

  lemma ScaledBelow(c: real, a: real, h: real)
    requires c >= 0.0 && h > 0.0 && 0.0 <= a <= h
    ensures 0.0 <= c * a / h <= c
  {
    ProductNonNegative(c, a);
    ProductNonNegative(c, h - a);
    assert c * a / h * h == c * a;
  }

  /** A span within [0, host] maps within [0, canvas]. */
  lemma SpanInside(canvas: real, host: real, offset: real, length: real)
    requires canvas >= 0.0 && host > 0.0 && 0.0 <= offset && 0.0 <= length && offset + length <= host
    ensures var s := MapSpan(canvas, host, offset, length);
            0.0 <= s.start && 0.0 <= s.length && s.start + s.length <= canvas
  {
    ScaledBelow(canvas, offset, host);
    ScaledBelow(canvas, offset + length, host);
    ScaledBelow(canvas, length, host);
    assert canvas * (offset + length) / host - canvas * offset / host == canvas * length / host;
    var s := MapSpan(canvas, host, offset, length);
    assert s.start + s.length == canvas * (offset + length) / host;
  }

  /**
   * A viewport that lies within the host maps to a rectangle that lies
   * within the preview canvas.
   */
  lemma PreviewInsideCanvas(canvas: Size, host: Size, offset: Point, viewport: Size)
    requires host.width > 0.0 && host.height > 0.0
    requires canvas.width >= 0.0 && canvas.height >= 0.0
    requires 0.0 <= offset.x && 0.0 <= viewport.width && offset.x + viewport.width <= host.width
    requires 0.0 <= offset.y && 0.0 <= viewport.height && offset.y + viewport.height <= host.height
    ensures var r := PreviewRectangle(canvas, host, offset, viewport);
            && 0.0 <= r.left && 0.0 <= r.width && r.left + r.width <= canvas.width
            && 0.0 <= r.top && 0.0 <= r.height && r.top + r.height <= canvas.height
  {
    SpanInside(canvas.width, host.width, offset.x, viewport.width);
    SpanInside(canvas.height, host.height, offset.y, viewport.height);
  }

  /** Two worked mappings of the preview rectangle. */
  lemma PreviewExamples()
    ensures PreviewRectangle(Size(100.0, 100.0), Size(1000.0, 1000.0), Point(0.0, 0.0), Size(500.0, 500.0))
            == Rect(0.0, 0.0, 50.0, 50.0)
    ensures PreviewRectangle(Size(100.0, 50.0), Size(2000.0, 1000.0), Point(500.0, 0.0), Size(500.0, 500.0))
            == Rect(25.0, 0.0, 25.0, 25.0)
  {
  }

  /** DrawPreviewRectangle: recompute the preview rectangle, nothing else. */
  function DrawPreviewRectangle(st: ViewerState): (r: ViewerState)
    requires st.host.width > 0.0 && st.host.height > 0.0
    ensures r == st.(preview := r.preview)
    ensures r.preview == PreviewRectangle(st.previewCanvas, st.host, st.offset, st.viewport)
  {
    st.(preview := PreviewRectangle(st.previewCanvas, st.host, st.offset, st.viewport))
  }

  /** Redraw the preview when there is an image to map it against. */
  function Redraw(st: ViewerState): (r: ViewerState)
    requires Inv(st)
    ensures Inv(r) && r.(preview := st.preview) == st
    ensures st.image.Bitmap? ==> r.preview == PreviewRectangle(st.previewCanvas, st.host, st.offset, st.viewport)
    ensures st.image.NoImage? ==> r == st
  {
    if st.image.Bitmap? then DrawPreviewRectangle(st) else st
  }

  /**
   * ScaleChanged: size the host for the current scale, recentre the
   * requested offsets on the extent, and show the preview only when the
   * image overflows the viewport.
   */
  function ScaleChanged(st: ViewerState): (r: ViewerState)
    requires st.scale > 0.0
    requires st.image.Bitmap? ==> st.image.pixelWidth > 0 && st.image.pixelHeight > 0
    ensures Inv(r)
    ensures r.(host := st.host, offset := st.offset, previewVisible := st.previewVisible, preview := st.preview) == st
    ensures st.image.NoImage? ==> r == st
    ensures st.image.Bitmap? ==>
              && r.host == HostExtent(st.image.pixelWidth, st.image.pixelHeight, st.scale)
              && r.offset.x * 2.0 == r.host.width && r.offset.y * 2.0 == r.host.height
              && (r.previewVisible <==> r.host.width > st.viewport.width || r.host.height > st.viewport.height)
  {
    match st.image
    case NoImage => st
    case Bitmap(pw, ph) =>
      var host := HostExtent(pw, ph, st.scale);
      var centred := st.(host := host, offset := Point(host.width / 2.0, host.height / 2.0));
      if host.width > st.viewport.width || host.height > st.viewport.height then
        DrawPreviewRectangle(centred.(previewVisible := true))
      else
        centred.(previewVisible := false)
  }

  /** The Scale setter: the change callback runs only when the value changes. */
  function SetScale(st: ViewerState, value: real): (r: ViewerState)
    requires Inv(st) && value > 0.0
    ensures Inv(r) && r.scale == value
    ensures r.image == st.image && r.minimumScale == st.minimumScale && r.maximumScale == st.maximumScale
    ensures r.prevPoint == st.prevPoint && r.isTranslate == st.isTranslate
  {
    if value == st.scale then st else ScaleChanged(st.(scale := value))
  }

  /** ToScale: the bound is checked first, then one delta is applied. */
  function ToScale(st: ViewerState, t: ScaleType): (r: ViewerState)
    requires Inv(st)
    ensures Inv(r) && r.scale == Step(st.scale, t, st.minimumScale, st.maximumScale)
    ensures r.scale == st.scale ==> r == st
    ensures r.image == st.image && r.prevPoint == st.prevPoint && r.isTranslate == st.isTranslate
  {
    match t
    case Increase =>
      if st.scale >= st.maximumScale then st
      else SetScale(st, st.scale + AddedDelta(st.scale))
    case Decrease =>
      if st.scale <= st.minimumScale then st
      else SetScale(st, st.scale - SubtractDelta(st.scale))
  }

  /** ImagePathChanged: take the new bitmap and lay it out at the current scale. */
  function ImagePathChanged(st: ViewerState, pixelWidth: nat, pixelHeight: nat): (r: ViewerState)
    requires Inv(st) && pixelWidth > 0 && pixelHeight > 0
    ensures Inv(r) && r.image == Bitmap(pixelWidth, pixelHeight) && r.scale == st.scale
    ensures r.prevPoint == st.prevPoint && r.isTranslate == st.isTranslate
  {
    ScaleChanged(st.(image := Bitmap(pixelWidth, pixelHeight)))
  }

  function MouseLeftButtonDown(st: ViewerState, source: EventSource, position: Point): (r: ViewerState)
    ensures r.prevPoint == position && (r.isTranslate <==> st.isTranslate || StartsPan(source))
    ensures r.(prevPoint := st.prevPoint, isTranslate := st.isTranslate) == st
  {
    if StartsPan(source) then st.(prevPoint := position, isTranslate := true)
    else st.(prevPoint := position)
  }

  function MouseMove(st: ViewerState, position: Point): (r: ViewerState)
    requires Inv(st)
    ensures Inv(r)
    ensures !st.isTranslate ==> r == st
    ensures st.isTranslate ==> r.prevPoint == position
                               && r.offset.x + position.x == st.offset.x + st.prevPoint.x
                               && r.offset.y + position.y == st.offset.y + st.prevPoint.y
    ensures r.(offset := st.offset, prevPoint := st.prevPoint, preview := st.preview) == st
    ensures st.isTranslate && st.image.Bitmap? ==>
              r.preview == PreviewRectangle(st.previewCanvas, st.host, r.offset, st.viewport)
  {
    if st.isTranslate then
      var panned := st.(offset := Point(st.offset.x - (position.x - st.prevPoint.x),
                                          st.offset.y - (position.y - st.prevPoint.y)),
                        prevPoint := position);
      Redraw(panned)
    else
      st
  }

  function MouseLeftButtonUp(st: ViewerState): (r: ViewerState)
    ensures !r.isTranslate && r.(isTranslate := st.isTranslate) == st
  {
    st.(isTranslate := false)
  }

  /** Ctrl zooms, Shift scrolls horizontally, otherwise the wheel scrolls vertically. */
  function MouseWheel(st: ViewerState, delta: int, ctrl: bool, shift: bool): (r: ViewerState)
    requires Inv(st)
    ensures Inv(r)
    ensures ctrl ==> r.scale == Step(st.scale, if delta > 0 then Increase else Decrease, st.minimumScale, st.maximumScale)
    ensures !ctrl ==> r.(offset := st.offset, preview := st.preview) == st
    ensures !ctrl && shift ==> r.offset == Point(st.offset.x - delta as real, st.offset.y)
    ensures !ctrl && !shift ==> r.offset == Point(st.offset.x, st.offset.y - delta as real)
    ensures !ctrl && st.image.Bitmap? ==>
              r.preview == PreviewRectangle(st.previewCanvas, st.host, r.offset, st.viewport)
  {
    if ctrl then
      ToScale(st, if delta > 0 then Increase else Decrease)
    else if shift then
      Redraw(st.(offset := Point(st.offset.x - delta as real, st.offset.y)))
    else
      Redraw(st.(offset := Point(st.offset.x, st.offset.y - delta as real)))
  }

  // ---------------------------------------------------------------------
  // Properties of the transitions

  /** ScaleChanged keeps the invariant, and lays the image out as promised. */
  lemma ScaleChangedLaysOut(st: ViewerState)
    requires st.scale > 0.0
    requires st.image.Bitmap? ==> st.image.pixelWidth > 0 && st.image.pixelHeight > 0
    ensures Inv(ScaleChanged(st))
    ensures var r := ScaleChanged(st);
            && r.scale == st.scale && r.image == st.image
            && r.viewport == st.viewport && r.previewCanvas == st.previewCanvas
            && r.prevPoint == st.prevPoint && r.isTranslate == st.isTranslate
            && (st.image.NoImage? ==> r == st)
            && (st.image.Bitmap? ==>
                  && r.host.width * 100.0 == st.image.pixelWidth as real * st.scale
                  && r.host.height * 100.0 == st.image.pixelHeight as real * st.scale
                  && r.offset == Point(r.host.width / 2.0, r.host.height / 2.0)
                  && (r.previewVisible <==> r.host.width > st.viewport.width || r.host.height > st.viewport.height)
                  && (r.previewVisible ==> r.preview == PreviewRectangle(st.previewCanvas, r.host, r.offset, st.viewport))
                  && (!r.previewVisible ==> r.preview == st.preview))
  {
  }

  /** A blocked zoom leaves everything unchanged. */
  lemma ToScaleBlocked(st: ViewerState, t: ScaleType)
    requires Inv(st)
    requires (t == Increase && st.scale >= st.maximumScale) || (t == Decrease && st.scale <= st.minimumScale)
    ensures ToScale(st, t) == st
  {
  }

  /**
   * ToScale keeps the invariant, moves Scale exactly as Step does, and an
   * accepted zoom re-lays out the image and recentres the offsets.
   */
  lemma ToScaleEffect(st: ViewerState, t: ScaleType)
    requires Inv(st)
    ensures var r := ToScale(st, t);
            && Inv(r)
            && r.scale == Step(st.scale, t, st.minimumScale, st.maximumScale)
            && r.minimumScale == st.minimumScale && r.maximumScale == st.maximumScale
            && (r.scale == st.scale ==> r == st)
            && (r.scale != st.scale && st.image.Bitmap? ==>
                  && r.host == HostExtent(st.image.pixelWidth, st.image.pixelHeight, r.scale)
                  && r.offset == Point(r.host.width / 2.0, r.host.height / 2.0)
                  && (r.previewVisible <==> r.host.width > st.viewport.width || r.host.height > st.viewport.height))
  {
    var value := if t == Increase then st.scale + AddedDelta(st.scale) else st.scale - SubtractDelta(st.scale);
    if value > 0.0 && value != st.scale {
      ScaleChangedLaysOut(st.(scale := value));
    }
  }

  /** Loading an image lays it out at the current scale and keeps the invariant. */
  lemma ImagePathChangedEffect(st: ViewerState, pixelWidth: nat, pixelHeight: nat)
    requires Inv(st) && pixelWidth > 0 && pixelHeight > 0
    ensures var r := ImagePathChanged(st, pixelWidth, pixelHeight);
            && Inv(r) && r.scale == st.scale && r.image == Bitmap(pixelWidth, pixelHeight)
            && r.host == HostExtent(pixelWidth, pixelHeight, st.scale)
            && r.offset == Point(r.host.width / 2.0, r.host.height / 2.0)
  {
    ScaleChangedLaysOut(st.(image := Bitmap(pixelWidth, pixelHeight)));
  }

  /** The pan flag after a press: set iff the press came from the canvas or the scroll viewer (or it was set). */
  lemma ButtonDownFlag(st: ViewerState, source: EventSource, position: Point)
    ensures var r := MouseLeftButtonDown(st, source, position);
            && (r.isTranslate <==> st.isTranslate || source == CanvasPart || source == ScrollViewerPart)
            && r.prevPoint == position
            && r == st.(prevPoint := position, isTranslate := r.isTranslate)
  {
  }

  /** Without the pan flag a move changes nothing; a release always clears the flag. */
  lemma MoveWithoutPanIsIdle(st: ViewerState, position: Point)
    requires Inv(st) && !st.isTranslate
    ensures MouseMove(st, position) == st
    ensures MouseMove(MouseLeftButtonUp(st), position) == st
  {
  }

  /** Applying the moves of a drag one after the other. */
  function MoveAll(st: ViewerState, positions: seq<Point>): (r: ViewerState)
    requires Inv(st)
    ensures Inv(r) && r.scale == st.scale && r.host == st.host && r.isTranslate == st.isTranslate
    decreases |positions|
  {
    if positions == [] then st
    else MoveAll(MouseMove(st, positions[0]), positions[1..])
  }

  /**
   * During a drag the offsets move by the opposite of the total pointer
   * displacement since the press, however the path was split into moves.
   */
  lemma {:induction false} DragPansByPointerDisplacement(st: ViewerState, positions: seq<Point>)
    requires Inv(st) && st.isTranslate && positions != []
    decreases |positions|
    ensures var r := MoveAll(st, positions);
            var last := positions[|positions| - 1];
            && r.offset == Point(st.offset.x - (last.x - st.prevPoint.x), st.offset.y - (last.y - st.prevPoint.y))
            && r.prevPoint == last
  {
    var next := MouseMove(st, positions[0]);
    if |positions| > 1 {
      DragPansByPointerDisplacement(next, positions[1..]);
      assert positions[1..][|positions[1..]| - 1] == positions[|positions| - 1];
    }
  }

  /** The plain wheel only lowers the vertical offset by the wheel delta (and redraws). */
  lemma PlainWheelScrollsVertically(st: ViewerState, delta: int)
    requires Inv(st)
    ensures var r := MouseWheel(st, delta, false, false);
            && r.offset == Point(st.offset.x, st.offset.y - delta as real)
            && r.scale == st.scale && r.host == st.host && r.isTranslate == st.isTranslate
  {
  }

  /** Ctrl with the wheel at a bound is a no-op. */
  lemma CtrlWheelAtBound(st: ViewerState, delta: int, shift: bool)
    requires Inv(st)
    requires (delta > 0 && st.scale >= st.maximumScale) || (delta <= 0 && st.scale <= st.minimumScale)
    ensures MouseWheel(st, delta, true, shift) == st
  {
  }

  /** Every handler keeps the invariant. */
  lemma HandlersKeepInv(st: ViewerState, source: EventSource, position: Point, delta: int, ctrl: bool, shift: bool)
    requires Inv(st)
    ensures Inv(MouseLeftButtonDown(st, source, position))
    ensures Inv(MouseMove(st, position))
    ensures Inv(MouseLeftButtonUp(st))
    ensures Inv(MouseWheel(st, delta, ctrl, shift))
  {
    ToScaleEffect(st, if delta > 0 then Increase else Decrease);
  }
}
