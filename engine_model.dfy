/**
 * The ImageEngine control of the PictureAnalyser application, as pure
 * transitions over a snapshot of its state. It zooms by a raw resolution
 * factor (1 means one host unit per pixel) rather than a percentage, and it
 * resets that factor whenever a new image is loaded.
 */
module EngineModel {
  import opened Magnitude
  import opened ScaleStep
  import opened ViewerTypes

  const DefaultResolution: real := 1.0
  const DefaultMinimumResolution: real := 0.01
  const DefaultMaximumResolution: real := 50.0

  datatype EngineState = EngineState(
    resolution: real,
    minimumResolution: real,
    maximumResolution: real,
    image: Bitmap,
    host: Size,           // Host Width and Height
    offset: Point,        // ScrollViewer horizontal and vertical offset
    prevPoint: Point,
    isTranslate: bool)

  /** Host size for a resolution factor: one pixel is `resolution` units wide. */
  function EngineExtent(pixelWidth: nat, pixelHeight: nat, resolution: real): (h: Size)
    requires resolution > 0.0
    ensures pixelWidth > 0 && pixelHeight > 0 ==> h.width > 0.0 && h.height > 0.0
  {
    Size(pixelWidth as real * resolution, pixelHeight as real * resolution)
  }

  /** The engine's extent is the percent viewers' extent at 100 times the factor. */
  lemma EngineExtentIsPercentExtent(pixelWidth: nat, pixelHeight: nat, resolution: real)
    requires resolution > 0.0
    ensures EngineExtent(pixelWidth, pixelHeight, resolution) == HostExtent(pixelWidth, pixelHeight, resolution * 100.0)
  {
  }

  /** Resolution is positive, and once an image is loaded the host matches it. */
  ghost predicate Inv(st: EngineState) {
    && st.resolution > 0.0
    && (st.image.Bitmap? ==>
          && st.image.pixelWidth > 0 && st.image.pixelHeight > 0
          && st.host == EngineExtent(st.image.pixelWidth, st.image.pixelHeight, st.resolution))
  }

  function Initial(): (st: EngineState)
    ensures Inv(st)
    ensures st.resolution == 1.0 && st.minimumResolution == 0.01 && st.maximumResolution == 50.0
    ensures st.image == NoImage && !st.isTranslate
  {
    EngineState(DefaultResolution, DefaultMinimumResolution, DefaultMaximumResolution, NoImage,
                Size(0.0, 0.0), Point(0.0, 0.0), Point(0.0, 0.0), false)
  }

  /** UpdateScale: the host follows the resolution once an image is loaded. */
  function UpdateScale(st: EngineState): (r: EngineState)
    requires st.resolution > 0.0
    ensures r.(host := st.host) == st
    ensures st.image.Bitmap? ==> r.host == EngineExtent(st.image.pixelWidth, st.image.pixelHeight, st.resolution)
  {
    match st.image
    case NoImage => st
    case Bitmap(pw, ph) => st.(host := EngineExtent(pw, ph, st.resolution))
  }

  /** ImagePathChanged: take the new bitmap and reset the resolution to one unit per pixel. */
  function ImagePathChanged(st: EngineState, pixelWidth: nat, pixelHeight: nat): (r: EngineState)
    ensures r.image == Bitmap(pixelWidth, pixelHeight) && r.resolution == 1.0
    ensures r.host == Size(pixelWidth as real, pixelHeight as real)
    ensures r.(image := st.image, resolution := st.resolution, host := st.host) == st
  {
    UpdateScale(st.(image := Bitmap(pixelWidth, pixelHeight), resolution := DefaultResolution))
  }

  /** Left Ctrl zooms by one resolution step; otherwise the wheel scrolls vertically. */
  function MouseWheel(st: EngineState, delta: int, leftCtrl: bool): (r: EngineState)
    requires Inv(st)
    ensures Inv(r)
    ensures leftCtrl ==> r.(resolution := st.resolution, host := st.host) == st
    ensures leftCtrl ==> r.resolution == Step(st.resolution, if delta > 0 then Increase else Decrease,
                                              st.minimumResolution, st.maximumResolution)
    ensures !leftCtrl ==> r == st.(offset := Point(st.offset.x, st.offset.y - delta as real))
  {
    if leftCtrl then
      if delta > 0 then
        if st.resolution >= st.maximumResolution then st
        else UpdateScale(st.(resolution := st.resolution + AddedDelta(st.resolution)))
      else
        if st.resolution <= st.minimumResolution then st
        else UpdateScale(st.(resolution := st.resolution - SubtractDelta(st.resolution)))
    else
      st.(offset := Point(st.offset.x, st.offset.y - delta as real))
  }

  function MouseLeftButtonDown(st: EngineState, source: EventSource, position: Point): (r: EngineState)
    ensures r.prevPoint == position && (r.isTranslate <==> st.isTranslate || StartsPan(source))
    ensures r.(prevPoint := st.prevPoint, isTranslate := st.isTranslate) == st
  {
    if StartsPan(source) then st.(prevPoint := position, isTranslate := true)
    else st.(prevPoint := position)
  }

  function MouseMove(st: EngineState, position: Point): (r: EngineState)
    ensures !st.isTranslate ==> r == st
    ensures st.isTranslate ==> r.prevPoint == position
                               && r.offset.x + position.x == st.offset.x + st.prevPoint.x
                               && r.offset.y + position.y == st.offset.y + st.prevPoint.y
    ensures r.(offset := st.offset, prevPoint := st.prevPoint) == st
  {
    if st.isTranslate then
      st.(offset := Point(st.offset.x - (position.x - st.prevPoint.x),
                          st.offset.y - (position.y - st.prevPoint.y)),
          prevPoint := position)
    else
      st
  }

  function MouseLeftButtonUp(st: EngineState): (r: EngineState)
    ensures !r.isTranslate && r.(isTranslate := st.isTranslate) == st
  {
    st.(isTranslate := false)
  }

  // ---------------------------------------------------------------------
  // Properties of the transitions

  /**
   * Loading an image resets the resolution to 1 whatever it was, so the host
   * takes the bitmap's pixel size; the scroll offsets are not touched.
   */
  lemma ImagePathChangedResets(st: EngineState, pixelWidth: nat, pixelHeight: nat)
    requires pixelWidth > 0 && pixelHeight > 0
    ensures var r := ImagePathChanged(st, pixelWidth, pixelHeight);
            && Inv(r) && r.resolution == 1.0
            && r.host == Size(pixelWidth as real, pixelHeight as real)
            && r.offset == st.offset && r.isTranslate == st.isTranslate
  {
  }

  /**
   * Ctrl+wheel moves the resolution exactly as Step does, keeps it positive,
   * and an accepted step resizes the host to pixel times resolution.
   */
  lemma CtrlWheelSteps(st: EngineState, delta: int)
    requires Inv(st)
    ensures var t := if delta > 0 then Increase else Decrease;
            var r := MouseWheel(st, delta, true);
            && Inv(r) && r.resolution > 0.0
            && r.resolution == Step(st.resolution, t, st.minimumResolution, st.maximumResolution)
            && (r.resolution == st.resolution ==> r == st)
            && r.offset == st.offset
            && (st.image.Bitmap? ==>
                  r.host == EngineExtent(st.image.pixelWidth, st.image.pixelHeight, r.resolution))
            && (st.image.NoImage? ==> r.host == st.host)
  {
    var t := if delta > 0 then Increase else Decrease;
    StepAccepted(st.resolution, t, st.minimumResolution, st.maximumResolution);
    if delta > 0 {
      if st.resolution < st.maximumResolution {
        AcceptedWheelUpdates(st, st.resolution + AddedDelta(st.resolution));
      }
    } else {
      if st.resolution > st.minimumResolution {
        AcceptedWheelUpdates(st, st.resolution - SubtractDelta(st.resolution));
      }
    }
  }

  /** An accepted step stores the new resolution and resizes the host for it. */
  lemma AcceptedWheelUpdates(st: EngineState, value: real)
    requires Inv(st) && value > 0.0
    ensures var r := UpdateScale(st.(resolution := value));
            && Inv(r) && r.resolution == value && r.offset == st.offset
            && (st.image.Bitmap? ==>
                  r.host == Size(st.image.pixelWidth as real * value,
                                 st.image.pixelHeight as real * value))
            && (st.image.NoImage? ==> r.host == st.host)
  {
  }

  /** Ctrl+wheel at a bound leaves resolution, host and everything else unchanged. */
  lemma CtrlWheelAtBound(st: EngineState, delta: int)
    requires Inv(st)
    requires (delta > 0 && st.resolution >= st.maximumResolution)
          || (delta <= 0 && st.resolution <= st.minimumResolution)
    ensures MouseWheel(st, delta, true) == st
  {
  }

  /** Without the left Ctrl key the wheel only lowers the vertical offset. */
  lemma PlainWheelScrollsVertically(st: EngineState, delta: int)
    requires Inv(st)
    ensures MouseWheel(st, delta, false) == st.(offset := Point(st.offset.x, st.offset.y - delta as real))
  {
  }

  /**
   * Below 1 the steps follow the floor of the logarithm: from 0.5 the wheel
   * gives 0.6 and 0.4, and from 0.1 zooming out gives 0.09.
   */
  lemma SubUnitSteps(pixelWidth: nat, pixelHeight: nat)
    requires pixelWidth > 0 && pixelHeight > 0
    ensures var half := ImagePathChanged(Initial(), pixelWidth, pixelHeight).(resolution := 0.5);
            var tenth := half.(resolution := 0.1);
            && MouseWheel(UpdateScale(half), 120, true).resolution == 0.6
            && MouseWheel(UpdateScale(half), -120, true).resolution == 0.4
            && MouseWheel(UpdateScale(tenth), -120, true).resolution == 0.09
  {
    var half := ImagePathChanged(Initial(), pixelWidth, pixelHeight).(resolution := 0.5);
    var tenth := half.(resolution := 0.1);
    CtrlWheelSteps(UpdateScale(half), 120);
    CtrlWheelSteps(UpdateScale(half), -120);
    CtrlWheelSteps(UpdateScale(tenth), -120);
    StepBelowOne();
  }

  /**
   * The resolution stepper and the percent stepper agree: a resolution of
   * s / 100 between the default bounds steps to one hundredth of where the
   * percent scale s steps between its default bounds, and the host extents
   * then coincide.
   */
  lemma MatchesPercentScale(st: EngineState, delta: int, scale: real)
    requires Inv(st) && scale > 0.0 && st.resolution == scale / 100.0
    requires st.minimumResolution == DefaultMinimumResolution
    requires st.maximumResolution == DefaultMaximumResolution
    ensures var t := if delta > 0 then Increase else Decrease;
            var s := Step(scale, t, DefaultMinimumScale, DefaultMaximumScale);
            var r := MouseWheel(st, delta, true);
            && r.resolution * 100.0 == s
            && (st.image.Bitmap? ==> r.host == HostExtent(st.image.pixelWidth, st.image.pixelHeight, s))
  {
    var t := if delta > 0 then Increase else Decrease;
    StepInPercent(scale, t, DefaultMinimumScale, DefaultMaximumScale);
    CtrlWheelSteps(st, delta);
    var r := MouseWheel(st, delta, true);
    if st.image.Bitmap? {
      EngineExtentIsPercentExtent(st.image.pixelWidth, st.image.pixelHeight, r.resolution);
    }
  }

  /**
   * Dragging: a press from the canvas or scroll viewer starts a pan, a move
   * pans by the opposite of the pointer delta, and after a release moves do
   * nothing.
   */
  lemma DragPans(st: EngineState, source: EventSource, down: Point, move: Point)
    requires StartsPan(source)
    ensures var pressed := MouseLeftButtonDown(st, source, down);
            var moved := MouseMove(pressed, move);
            && moved.offset == Point(st.offset.x - (move.x - down.x), st.offset.y - (move.y - down.y))
            && moved.prevPoint == move && moved.resolution == st.resolution && moved.host == st.host
            && MouseMove(MouseLeftButtonUp(moved), down) == MouseLeftButtonUp(moved)
  {
  }

  /** A press from anywhere else records the point but does not start a pan. */
  lemma PressElsewhereDoesNotPan(st: EngineState, down: Point, move: Point)
    requires !st.isTranslate
    ensures var pressed := MouseLeftButtonDown(st, OtherElement, down);
            !pressed.isTranslate && pressed.prevPoint == down && MouseMove(pressed, move) == pressed
  {
  }
}
