/**
 * The ImageEngine control: its fields are updated in place by its handlers,
 * each specified by the EngineModel transition of the same name.
 */
module ImageEngineControl {
  import opened ScaleStep
  import opened ViewerTypes
  import opened EngineModel

  class ImageEngine {
    var resolution: real
    var minimumResolution: real
    var maximumResolution: real
    var image: Bitmap
    var hostWidth: real
    var hostHeight: real
    var horizontalOffset: real
    var verticalOffset: real
    var prevPoint: Point
    var isTranslate: bool

    /** The control's state as a value. */
    function State(): EngineState
      reads this
    {
      EngineState(resolution, minimumResolution, maximumResolution, image,
                  Size(hostWidth, hostHeight), Point(horizontalOffset, verticalOffset),
                  prevPoint, isTranslate)
    }

    ghost predicate Valid()
      reads this
    {
      EngineModel.Inv(State())
    }

    /** Resolution 1 between the default bounds 0.01 and 50, and no image yet. */
    constructor ()
      ensures Valid() && State() == Initial()
    {
      resolution := DefaultResolution;
      minimumResolution, maximumResolution := DefaultMinimumResolution, DefaultMaximumResolution;
      image := NoImage;
      hostWidth, hostHeight := 0.0, 0.0;
      horizontalOffset, verticalOffset := 0.0, 0.0;
      prevPoint := Point(0.0, 0.0);
      isTranslate := false;
    }

    method ImagePathChanged(pixelWidth: nat, pixelHeight: nat)
      requires pixelWidth > 0 && pixelHeight > 0
      modifies this
      ensures Valid() && State() == EngineModel.ImagePathChanged(old(State()), pixelWidth, pixelHeight)
    {
      image := Bitmap(pixelWidth, pixelHeight);
      resolution := DefaultResolution;
      UpdateScale();
    }

    method MouseLeftButtonDown(source: EventSource, position: Point)
      requires Valid()
      modifies this
      ensures Valid() && State() == EngineModel.MouseLeftButtonDown(old(State()), source, position)
    {
      prevPoint := position;
      if source == CanvasPart || source == ScrollViewerPart {
        isTranslate := true;
      }
    }

    method MouseMove(position: Point)
      requires Valid()
      modifies this
      ensures Valid() && State() == EngineModel.MouseMove(old(State()), position)
    {
      if isTranslate {
        horizontalOffset := horizontalOffset - (position.x - prevPoint.x);
        verticalOffset := verticalOffset - (position.y - prevPoint.y);
        prevPoint := position;
      }
    }

    method MouseLeftButtonUp()
      requires Valid()
      modifies this
      ensures Valid() && State() == EngineModel.MouseLeftButtonUp(old(State()))
    {
      isTranslate := false;
    }

    method MouseWheel(delta: int, leftCtrl: bool)
      requires Valid()
      modifies this
      ensures Valid() && State() == EngineModel.MouseWheel(old(State()), delta, leftCtrl)
    {
      CtrlWheelSteps(State(), delta);
      if leftCtrl {
        if delta > 0 {
          if resolution >= maximumResolution { return; }
          resolution := resolution + AddedDelta(resolution);
        } else {
          if resolution <= minimumResolution { return; }
          resolution := resolution - SubtractDelta(resolution);
        }
        UpdateScale();
      } else {
        verticalOffset := verticalOffset - delta as real;
      }
    }

    method UpdateScale()
      requires resolution > 0.0
      modifies this
      ensures State() == EngineModel.UpdateScale(old(State()))
    {
      match image
      case NoImage =>
      case Bitmap(pw, ph) =>
        hostWidth, hostHeight := pw as real * resolution, ph as real * resolution;
    }
  }
}
