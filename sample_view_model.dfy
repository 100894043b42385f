/**
 * The sample application's main view model: it owns the controller that
 * the ImageViewer control is bound to, and binds the Add and Subtract keys
 * to zooming in and out through that controller.
 */
module SampleViewModel {
  import opened ScaleStep
  import ViewerModel
  import opened ImageViewerControl
  import opened ViewerTypes

  datatype Key = Add | Subtract | OtherKey

  /** The two delegate commands the key bindings hold. */
  datatype Command = IncreaseScaleCommand | DecreaseScaleCommand

  /** A key binding without modifier keys (ModifierKeys.None). */
  datatype KeyBinding = KeyBinding(command: Command, key: Key)

  /** The bindings the constructor adds, in order. */
  const DefaultKeyBindings: seq<KeyBinding> :=
    [KeyBinding(IncreaseScaleCommand, Add), KeyBinding(DecreaseScaleCommand, Subtract)]

  /** The position of the first binding for key, or |bindings| when there is none. */
  function FirstBinding(bindings: seq<KeyBinding>, key: Key): (i: nat)
    ensures i <= |bindings|
    ensures forall j :: 0 <= j < i ==> bindings[j].key != key
    ensures i < |bindings| ==> bindings[i].key == key
  {
    if |bindings| == 0 || bindings[0].key == key then 0
    else 1 + FirstBinding(bindings[1..], key)
  }

  /** The command of the first binding for key, if any. */
  function CommandFor(bindings: seq<KeyBinding>, key: Key): (r: Option<Command>)
    ensures r.Some? <==> exists j :: 0 <= j < |bindings| && bindings[j].key == key
    ensures r.Some? ==> exists j :: 0 <= j < |bindings| && bindings[j] == KeyBinding(r.value, key)
                                    && forall i :: 0 <= i < j ==> bindings[i].key != key
  {
    var i := FirstBinding(bindings, key);
    if i < |bindings| then Some(bindings[i].command) else None
  }

  /** Add zooms in, Subtract zooms out, and no other key is bound. */
  lemma DefaultBindingsDispatch()
    ensures CommandFor(DefaultKeyBindings, Add) == Some(IncreaseScaleCommand)
    ensures CommandFor(DefaultKeyBindings, Subtract) == Some(DecreaseScaleCommand)
    ensures CommandFor(DefaultKeyBindings, OtherKey) == None
  {
  }

  class MainViewModel {
    const controller: ImageViewerController
    var keyBindings: seq<KeyBinding>

    /** A fresh, unattached controller and the two key bindings. */
    constructor ()
      ensures fresh(controller) && controller.imageViewer == null
      ensures keyBindings == DefaultKeyBindings
    {
      controller := new ImageViewerController();
      keyBindings := [];
      keyBindings := keyBindings + [KeyBinding(IncreaseScaleCommand, Add)];
      keyBindings := keyBindings + [KeyBinding(DecreaseScaleCommand, Subtract)];
    }

    method IncreaseScale()
      requires controller.imageViewer != null ==> controller.imageViewer.Valid()
      modifies controller.imageViewer
      ensures controller.imageViewer != null ==>
                controller.imageViewer.Valid()
                && controller.imageViewer.State() == ViewerModel.ToScale(old(controller.imageViewer.State()), Increase)
    {
      controller.IncreaseScale();
    }

    method DecreaseScale()
      requires controller.imageViewer != null ==> controller.imageViewer.Valid()
      modifies controller.imageViewer
      ensures controller.imageViewer != null ==>
                controller.imageViewer.Valid()
                && controller.imageViewer.State() == ViewerModel.ToScale(old(controller.imageViewer.State()), Decrease)
    {
      controller.DecreaseScale();
    }

    /**
     * A key press as the window's input bindings dispatch it: the bound
     * command runs, and an unbound key does nothing.
     */
    method KeyDown(key: Key)
      requires controller.imageViewer != null ==> controller.imageViewer.Valid()
      modifies controller.imageViewer
      ensures var viewer := controller.imageViewer;
              viewer != null ==>
                match CommandFor(keyBindings, key)
                case None => viewer.State() == old(viewer.State())
                case Some(IncreaseScaleCommand) => viewer.State() == ViewerModel.ToScale(old(viewer.State()), Increase)
                case Some(DecreaseScaleCommand) => viewer.State() == ViewerModel.ToScale(old(viewer.State()), Decrease)
    {
      match CommandFor(keyBindings, key)
      case None =>
      case Some(IncreaseScaleCommand) => IncreaseScale();
      case Some(DecreaseScaleCommand) => DecreaseScale();
    }
  }

  /**
   * Once the control is attached, Add zooms it in exactly as ToScale does,
   * and Subtract then zooms it out.
   */
  method AddThenSubtract(model: MainViewModel, viewer: ImageViewer)
    requires model.keyBindings == DefaultKeyBindings && viewer.Valid()
    modifies model.controller, viewer
    ensures model.controller.imageViewer == viewer
    ensures viewer.State()
         == ViewerModel.ToScale(ViewerModel.ToScale(old(viewer.State()), Increase), Decrease)
  {
    DefaultBindingsDispatch();
    model.controller.Init(viewer);
    model.KeyDown(Add);
    model.KeyDown(Subtract);
  }
}
