/**
 * The templated ImageViewer control and its controller. The control's
 * fields are updated in place by its handlers; each handler is specified by
 * the transition of the same name in ViewerModel, applied to State().
 */
module ImageViewerControl {
  import opened ScaleStep
  import opened ViewerTypes
  import opened ViewerModel

  class ImageViewer {
    var scale: real
    var minimumScale: real
    var maximumScale: real
    var image: Bitmap
    var hostWidth: real
    var hostHeight: real
    var horizontalOffset: real
    var verticalOffset: real
    var viewportWidth: real
    var viewportHeight: real
    var previewCanvasWidth: real
    var previewCanvasHeight: real
    var previewVisible: bool
    var previewLeft: real
    var previewTop: real
    var previewWidth: real
    var previewHeight: real
    var prevPoint: Point
    var isTranslate: bool
    var controller: ImageViewerController?

    /** The control's state as a value. */
    function State(): ViewerState
      reads this
    {
      ViewerState(scale, minimumScale, maximumScale, image,
                  Size(hostWidth, hostHeight), Point(horizontalOffset, verticalOffset),
                  Size(viewportWidth, viewportHeight), Size(previewCanvasWidth, previewCanvasHeight),
                  previewVisible, Rect(previewLeft, previewTop, previewWidth, previewHeight),
                  prevPoint, isTranslate)
    }

    ghost predicate Valid()
      reads this
    {
      Inv(State())
    }

    /** A control with the default scale and bounds, no image and no controller. */
    constructor (viewport: Size, previewCanvas: Size)
      ensures Valid() && State() == Initial(viewport, previewCanvas) && controller == null
    {
      scale, minimumScale, maximumScale := DefaultScale, DefaultMinimumScale, DefaultMaximumScale;
      image := NoImage;
      hostWidth, hostHeight := 0.0, 0.0;
      horizontalOffset, verticalOffset := 0.0, 0.0;
      viewportWidth, viewportHeight := viewport.width, viewport.height;
      previewCanvasWidth, previewCanvasHeight := previewCanvas.width, previewCanvas.height;
      previewVisible := false;
      previewLeft, previewTop, previewWidth, previewHeight := 0.0, 0.0, 0.0, 0.0;
      prevPoint := Point(0.0, 0.0);
      isTranslate := false;
      controller := null;
    }

    method ToScale(t: ScaleType)
      requires Valid()
      modifies this
      ensures Valid() && State() == ViewerModel.ToScale(old(State()), t)
      ensures controller == old(controller)
    {
      ToScaleEffect(State(), t);
      if t == Increase {
        if scale >= maximumScale { return; }
        SetScale(scale + AddedDelta(scale));
      } else {
        if scale <= minimumScale { return; }
        SetScale(scale - SubtractDelta(scale));
      }
    }

    /** The Scale property setter, which runs ScaleChanged when the value changes. */
    method SetScale(value: real)
      requires Valid() && value > 0.0
      modifies this
      ensures State() == ViewerModel.SetScale(old(State()), value)
      ensures controller == old(controller)
    {
      if value != scale {
        scale := value;
        ScaleChanged();
      }
    }

    method ImagePathChanged(pixelWidth: nat, pixelHeight: nat)
      requires Valid() && pixelWidth > 0 && pixelHeight > 0
      modifies this
      ensures Valid() && State() == ViewerModel.ImagePathChanged(old(State()), pixelWidth, pixelHeight)
      ensures controller == old(controller)
    {
      ImagePathChangedEffect(State(), pixelWidth, pixelHeight);
      image := Bitmap(pixelWidth, pixelHeight);
      ScaleChanged();
    }

    /** Stores the controller and attaches it to this control. */
    method ControllerChanged(c: ImageViewerController?)
      modifies this, c
      ensures controller == c && State() == old(State())
      ensures c != null ==> c.imageViewer == this
    {
      controller := c;
      if c != null {
        c.Init(this);
      }
    }

    method MouseLeftButtonDown(source: EventSource, position: Point)
      requires Valid()
      modifies this
      ensures Valid() && State() == ViewerModel.MouseLeftButtonDown(old(State()), source, position)
      ensures controller == old(controller)
    {
      prevPoint := position;
      if source == CanvasPart || source == ScrollViewerPart {
        isTranslate := true;
      }
    }

    method MouseMove(position: Point)
      requires Valid()
      modifies this
      ensures Valid() && State() == ViewerModel.MouseMove(old(State()), position)
      ensures controller == old(controller)
    {
      if isTranslate {
        horizontalOffset := horizontalOffset - (position.x - prevPoint.x);
        verticalOffset := verticalOffset - (position.y - prevPoint.y);
        prevPoint := position;
        if image.Bitmap? {
          DrawPreviewRectangle();
        }
      }
    }

    method MouseLeftButtonUp()
      requires Valid()
      modifies this
      ensures Valid() && State() == ViewerModel.MouseLeftButtonUp(old(State()))
      ensures controller == old(controller)
    {
      isTranslate := false;
    }

    method MouseWheel(delta: int, ctrl: bool, shift: bool)
      requires Valid()
      modifies this
      ensures Valid() && State() == ViewerModel.MouseWheel(old(State()), delta, ctrl, shift)
      ensures controller == old(controller)
    {
      if ctrl {
        ToScale(if delta > 0 then Increase else Decrease);
      } else if shift {
        horizontalOffset := horizontalOffset - delta as real;
        if image.Bitmap? {
          DrawPreviewRectangle();
        }
      } else {
        verticalOffset := verticalOffset - delta as real;
        if image.Bitmap? {
          DrawPreviewRectangle();
        }
      }
    }

    method ScaleChanged()
      requires scale > 0.0
      requires image.Bitmap? ==> image.pixelWidth > 0 && image.pixelHeight > 0
      modifies this
      ensures State() == ViewerModel.ScaleChanged(old(State()))
      ensures controller == old(controller)
    {
      match image
      case NoImage =>
      case Bitmap(pw, ph) =>
        var host := HostExtent(pw, ph, scale);
        hostWidth, hostHeight := host.width, host.height;
        horizontalOffset, verticalOffset := hostWidth / 2.0, hostHeight / 2.0;
        if host.width > viewportWidth || host.height > viewportHeight {
          previewVisible := true;
          DrawPreviewRectangle();
        } else {
          previewVisible := false;
        }
    }

    method DrawPreviewRectangle()
      requires hostWidth > 0.0 && hostHeight > 0.0
      modifies this
      ensures State() == ViewerModel.DrawPreviewRectangle(old(State()))
      ensures controller == old(controller)
    {
      var left := previewCanvasWidth * horizontalOffset / hostWidth;
      var top := previewCanvasHeight * verticalOffset / hostHeight;
      var right := previewCanvasWidth * (horizontalOffset + viewportWidth) / hostWidth;
      var bottom := previewCanvasHeight * (verticalOffset + viewportHeight) / hostHeight;
      previewWidth, previewHeight := right - left, bottom - top;
      previewLeft, previewTop := left, top;
    }
  }

  /**
   * Holds a possibly missing reference to the control it drives; calls made
   * before any Init do nothing.
   */
  class ImageViewerController {
    var imageViewer: ImageViewer?

    constructor ()
      ensures imageViewer == null
    {
      imageViewer := null;
    }

    method Init(viewer: ImageViewer)
      modifies this
      ensures imageViewer == viewer
    {
      imageViewer := viewer;
    }

    method IncreaseScale()
      requires imageViewer != null ==> imageViewer.Valid()
      modifies imageViewer
      ensures imageViewer != null ==>
                imageViewer.Valid() && imageViewer.State() == ViewerModel.ToScale(old(imageViewer.State()), Increase)
    {
      if imageViewer != null {
        imageViewer.ToScale(Increase);
      }
    }

    method DecreaseScale()
      requires imageViewer != null ==> imageViewer.Valid()
      modifies imageViewer
      ensures imageViewer != null ==>
                imageViewer.Valid() && imageViewer.State() == ViewerModel.ToScale(old(imageViewer.State()), Decrease)
    {
      if imageViewer != null {
        imageViewer.ToScale(Decrease);
      }
    }
  }

  /**
   * Attaching a second control replaces the first: only the most recently
   * attached control is zoomed.
   */
  method ReattachDrivesLatest(c: ImageViewerController, first: ImageViewer, second: ImageViewer)
    requires first != second && first.Valid() && second.Valid()
    modifies c, first, second
    ensures c.imageViewer == second
    ensures first.State() == old(first.State())
    ensures second.State() == ViewerModel.ToScale(old(second.State()), Increase)
  {
    c.Init(first);
    c.Init(second);
    c.IncreaseScale();
  }

  /** Before any Init, both controller calls leave every control unchanged. */
  method UnattachedControllerIsInert(viewer: ImageViewer)
    requires viewer.Valid()
    modifies viewer
    ensures viewer.State() == old(viewer.State())
  {
    var c := new ImageViewerController();
    c.IncreaseScale();
    c.DecreaseScale();
  }
}
