/**
 * The UserControl variant of ImageViewer (code-behind of a XAML control),
 * as pure transitions over a snapshot of its state: Ctrl+wheel steps the
 * scale in factor units, recentres on half the scrollable size, and there is
 * no preview overlay. ScrollableWidth and ScrollableHeight are supplied by
 * layout, which this model does not run.
 */
module XamlModel {
  import opened Magnitude
  import opened ScaleStep
  import opened ViewerTypes

  datatype XamlState = XamlState(
    scale: real,
    minimumScale: real,
    maximumScale: real,
    image: Bitmap,
    host: Size,           // Host Width and Height
    offset: Point,        // ScrollViewer horizontal and vertical offset
    scrollable: Size,     // ScrollViewer ScrollableWidth and ScrollableHeight
    prevPoint: Point,
    isTranslate: bool)

  ghost predicate Inv(st: XamlState) {
    && st.scale > 0.0
    && (st.image.Bitmap? ==>
          && st.image.pixelWidth > 0 && st.image.pixelHeight > 0
          && st.host == HostExtent(st.image.pixelWidth, st.image.pixelHeight, st.scale))
  }

  function Initial(scrollable: Size): (st: XamlState)
    ensures Inv(st)
    ensures st.scale == 100.0 && st.minimumScale == 1.0 && st.maximumScale == 5000.0
    ensures st.image == NoImage && !st.isTranslate
  {
    XamlState(DefaultScale, DefaultMinimumScale, DefaultMaximumScale, NoImage,
              Size(0.0, 0.0), Point(0.0, 0.0), scrollable, Point(0.0, 0.0), false)
  }

  /** GetAddedDeltaResolution(Scale / 100) * 100: the same step as on Scale itself. */
  function FactorAddedDelta(scale: real): (d: real)
    requires scale > 0.0
    ensures d == AddedDelta(scale)
  {
    DeltasScaleByHundred(scale);
    AddedDelta(scale / 100.0) * 100.0
  }

  /** GetSubtractDeltaResolution(Scale / 100) * 100: the same step as on Scale itself. */
  function FactorSubtractDelta(scale: real): (d: real)
    requires scale > 0.0
    ensures d == SubtractDelta(scale)
  {
    DeltasScaleByHundred(scale);
    SubtractDelta(scale / 100.0) * 100.0
  }

  /** ScaleChanged: only the host size follows the scale in this variant. */
  function ScaleChanged(st: XamlState): (r: XamlState)
    requires st.scale > 0.0
    ensures r.(host := st.host) == st
    ensures st.image.Bitmap? ==> r.host == HostExtent(st.image.pixelWidth, st.image.pixelHeight, st.scale)
  {
    match st.image
    case NoImage => st
    case Bitmap(pw, ph) => st.(host := HostExtent(pw, ph, st.scale))
  }

  /** The Scale setter: the change callback runs only when the value changes. */
  function SetScale(st: XamlState, value: real): (r: XamlState)
    requires Inv(st) && value > 0.0
    ensures Inv(r) && r.scale == value
    ensures r.(scale := st.scale, host := st.host) == st
  {
    if value == st.scale then st else ScaleChanged(st.(scale := value))
  }

  /** Scroll both offsets to the middle of the scrollable range. */
  function Recentre(st: XamlState): (r: XamlState)
    ensures r.(offset := st.offset) == st
    ensures r.offset.x * 2.0 == st.scrollable.width && r.offset.y * 2.0 == st.scrollable.height
  {
    st.(offset := Point(st.scrollable.width / 2.0, st.scrollable.height / 2.0))
  }

  function MouseWheel(st: XamlState, delta: int, ctrl: bool): (r: XamlState)
    requires Inv(st)
    ensures Inv(r)
    ensures ctrl ==> r.scale == Step(st.scale, if delta > 0 then Increase else Decrease, st.minimumScale, st.maximumScale)
    ensures !ctrl ==> r.(offset := st.offset) == st && r.offset.x == st.offset.x
                      && r.offset.y == st.offset.y - delta as real
  {
    if ctrl then
      if delta > 0 then
        if st.scale >= st.maximumScale then st
        else Recentre(SetScale(st, st.scale + FactorAddedDelta(st.scale)))
      else
        if st.scale <= st.minimumScale then st
        else Recentre(SetScale(st, st.scale - FactorSubtractDelta(st.scale)))
    else
      st.(offset := Point(st.offset.x, st.offset.y - delta as real))
  }

  function ImagePathChanged(st: XamlState, pixelWidth: nat, pixelHeight: nat): (r: XamlState)
    requires Inv(st) && pixelWidth > 0 && pixelHeight > 0
    ensures Inv(r) && r.image == Bitmap(pixelWidth, pixelHeight)
    ensures r.scale == st.scale && r.offset == st.offset && r.isTranslate == st.isTranslate
  {
    ScaleChanged(st.(image := Bitmap(pixelWidth, pixelHeight)))
  }

  function MouseLeftButtonDown(st: XamlState, source: EventSource, position: Point): (r: XamlState)
    ensures r.prevPoint == position && (r.isTranslate <==> st.isTranslate || StartsPan(source))
    ensures r.(prevPoint := st.prevPoint, isTranslate := st.isTranslate) == st
  {
    if StartsPan(source) then st.(prevPoint := position, isTranslate := true)
    else st.(prevPoint := position)
  }

  function MouseMove(st: XamlState, position: Point): (r: XamlState)
    ensures !st.isTranslate ==> r == st
    ensures st.isTranslate ==> r.prevPoint == position
                               && r.offset.x + position.x == st.offset.x + st.prevPoint.x
                               && r.offset.y + position.y == st.offset.y + st.prevPoint.y
    ensures r.(offset := st.offset, prevPoint := st.prevPoint) == st
  {
    if st.isTranslate then
      st.(offset := Point(st.offset.x - (position.x - st.prevPoint.x),
                          st.offset.y - (position.y - st.prevPoint.y)),
          prevPoint := position)
    else
      st
  }

  function MouseLeftButtonUp(st: XamlState): (r: XamlState)
    ensures !r.isTranslate && r.(isTranslate := st.isTranslate) == st
  {
    st.(isTranslate := false)
  }

  /**
   * GetMousePositionOffsets: the pointer position inside the host as
   * percentages of the host's actual size, or nothing when the pointer is
   * not strictly inside.
   */
  function GetMousePositionOffsets(position: Point, actual: Size): (r: Option<(real, real)>)
    ensures r.Some? <==> 0.0 < position.x < actual.width && 0.0 < position.y < actual.height
    ensures r.Some? ==> && 0.0 < r.value.0 < 100.0 && 0.0 < r.value.1 < 100.0
                        && r.value.0 * actual.width == position.x * 100.0
                        && r.value.1 * actual.height == position.y * 100.0
  {
    if position.x > 0.0 && position.y > 0.0 && position.x < actual.width && position.y < actual.height then
      var xOffset := position.x / actual.width * 100.0;
      var yOffset := position.y / actual.height * 100.0;
      PercentInside(position.x, actual.width);
      PercentInside(position.y, actual.height);
      Some((xOffset, yOffset))
    else
      None
  }

  lemma PercentInside(p: real, w: real)
    requires 0.0 < p < w
    ensures 0.0 < p / w * 100.0 < 100.0
    ensures p / w * 100.0 * w == p * 100.0
  {
    var q := p / w;
    assert q * w == p;
    if q >= 1.0 {
      ProductNonNegative(q - 1.0, w);
      assert false;
    }
  }

  // ---------------------------------------------------------------------
  // Properties of the transitions

  /**
   * Ctrl+wheel moves Scale exactly as Step does with the direction the wheel
   * gives, keeps the invariant, and an accepted step resizes the host and
   * recentres on half the scrollable size.
   */
  lemma CtrlWheelSteps(st: XamlState, delta: int)
    requires Inv(st)
    ensures var t := if delta > 0 then Increase else Decrease;
            var r := MouseWheel(st, delta, true);
            && Inv(r)
            && r.scale == Step(st.scale, t, st.minimumScale, st.maximumScale)
            && (r.scale == st.scale ==> r == st)
            && (r.scale != st.scale ==>
                  && r.offset == Point(st.scrollable.width / 2.0, st.scrollable.height / 2.0)
                  && (st.image.Bitmap? ==> r.host == HostExtent(st.image.pixelWidth, st.image.pixelHeight, r.scale))
                  && (st.image.NoImage? ==> r.host == st.host))
  {
  }

  /** Ctrl+wheel at a bound is a no-op. */
  lemma CtrlWheelAtBound(st: XamlState, delta: int)
    requires Inv(st)
    requires (delta > 0 && st.scale >= st.maximumScale) || (delta <= 0 && st.scale <= st.minimumScale)
    ensures MouseWheel(st, delta, true) == st
  {
  }

  /** Without Ctrl the wheel only lowers the vertical offset by the wheel delta. */
  lemma PlainWheelScrollsVertically(st: XamlState, delta: int)
    requires Inv(st)
    ensures MouseWheel(st, delta, false) == st.(offset := Point(st.offset.x, st.offset.y - delta as real))
  {
  }

  /** Loading an image sizes the host for the current scale. */
  lemma ImagePathChangedSizesHost(st: XamlState, pixelWidth: nat, pixelHeight: nat)
    requires Inv(st) && pixelWidth > 0 && pixelHeight > 0
    ensures var r := ImagePathChanged(st, pixelWidth, pixelHeight);
            && Inv(r) && r.scale == st.scale && r.offset == st.offset
            && r.host.width * 100.0 == pixelWidth as real * st.scale
            && r.host.height * 100.0 == pixelHeight as real * st.scale
  {
  }

  /**
   * Dragging: a press from the canvas or scroll viewer sets the pan flag, a
   * move while it is set pans by the opposite of the pointer delta, and after
   * a release moves do nothing.
   */
  lemma DragPans(st: XamlState, source: EventSource, down: Point, move: Point)
    requires StartsPan(source)
    ensures var pressed := MouseLeftButtonDown(st, source, down);
            var moved := MouseMove(pressed, move);
            && moved.offset == Point(st.offset.x - (move.x - down.x), st.offset.y - (move.y - down.y))
            && moved.prevPoint == move
            && MouseMove(MouseLeftButtonUp(moved), down) == MouseLeftButtonUp(moved)
  {
  }

  /** A press from anywhere else records the point but does not start a pan. */
  lemma PressElsewhereDoesNotPan(st: XamlState, down: Point, move: Point)
    requires !st.isTranslate
    ensures var pressed := MouseLeftButtonDown(st, OtherElement, down);
            !pressed.isTranslate && pressed.prevPoint == down && MouseMove(pressed, move) == pressed
  {
  }
}
