/**
 * The UserControl variant of ImageViewer: its fields are updated in place by
 * its handlers, each specified by the XamlModel transition of the same name.
 */
module XamlViewer {
  import opened ScaleStep
  import opened ViewerTypes
  import opened XamlModel

  class ImageViewer {
    var scale: real
    var minimumScale: real
    var maximumScale: real
    var image: Bitmap
    var hostWidth: real
    var hostHeight: real
    var horizontalOffset: real
    var verticalOffset: real
    var scrollableWidth: real
    var scrollableHeight: real
    var prevPoint: Point
    var isTranslate: bool

    function State(): XamlState
      reads this
    {
      XamlState(scale, minimumScale, maximumScale, image, Size(hostWidth, hostHeight),
                Point(horizontalOffset, verticalOffset), Size(scrollableWidth, scrollableHeight),
                prevPoint, isTranslate)
    }

    ghost predicate Valid()
      reads this
    {
      XamlModel.Inv(State())
    }

    constructor (scrollable: Size)
      ensures Valid() && State() == Initial(scrollable)
    {
      scale, minimumScale, maximumScale := DefaultScale, DefaultMinimumScale, DefaultMaximumScale;
      image := NoImage;
      hostWidth, hostHeight := 0.0, 0.0;
      horizontalOffset, verticalOffset := 0.0, 0.0;
      scrollableWidth, scrollableHeight := scrollable.width, scrollable.height;
      prevPoint := Point(0.0, 0.0);
      isTranslate := false;
    }

    method ImagePathChanged(pixelWidth: nat, pixelHeight: nat)
      requires Valid() && pixelWidth > 0 && pixelHeight > 0
      modifies this
      ensures Valid() && State() == XamlModel.ImagePathChanged(old(State()), pixelWidth, pixelHeight)
    {
      image := Bitmap(pixelWidth, pixelHeight);
      ScaleChanged();
    }

    method MouseLeftButtonDown(source: EventSource, position: Point)
      requires Valid()
      modifies this
      ensures Valid() && State() == XamlModel.MouseLeftButtonDown(old(State()), source, position)
    {
      prevPoint := position;
      if source == CanvasPart || source == ScrollViewerPart {
        isTranslate := true;
      }
    }

    method MouseMove(position: Point)
      requires Valid()
      modifies this
      ensures Valid() && State() == XamlModel.MouseMove(old(State()), position)
    {
      if isTranslate {
        horizontalOffset := horizontalOffset - (position.x - prevPoint.x);
        verticalOffset := verticalOffset - (position.y - prevPoint.y);
        prevPoint := position;
      }
    }

    method MouseLeftButtonUp()
      requires Valid()
      modifies this
      ensures Valid() && State() == XamlModel.MouseLeftButtonUp(old(State()))
    {
      isTranslate := false;
    }

    method ScaleChanged()
      requires scale > 0.0
      modifies this
      ensures State() == XamlModel.ScaleChanged(old(State()))
    {
      match image
      case NoImage =>
      case Bitmap(pw, ph) =>
        var width := pw as real * scale / 100.0;
        var height := ph as real * scale / 100.0;
        hostWidth, hostHeight := width, height;
    }

    method SetScale(value: real)
      requires Valid() && value > 0.0
      modifies this
      ensures State() == XamlModel.SetScale(old(State()), value)
    {
      if value != scale {
        scale := value;
        ScaleChanged();
      }
    }

    method MouseWheel(delta: int, ctrl: bool)
      requires Valid()
      modifies this
      ensures Valid() && State() == XamlModel.MouseWheel(old(State()), delta, ctrl)
    {
      CtrlWheelSteps(State(), delta);
      if ctrl {
        if delta > 0 {
          if scale >= maximumScale { return; }
          SetScale(scale + FactorAddedDelta(scale));
        } else {
          if scale <= minimumScale { return; }
          SetScale(scale - FactorSubtractDelta(scale));
        }
        horizontalOffset := scrollableWidth / 2.0;
        verticalOffset := scrollableHeight / 2.0;
      } else {
        verticalOffset := verticalOffset - delta as real;
      }
    }
  }
}
