# ImageViewer zoom, viewport and filter core in Dafny

This project models the logic inside the ImageViewer WPF controls: how they zoom, scroll and pan. It also models the open-file filter string built by the sample application. Three controls are covered:

- **Templated ImageViewer control.** Scale is a percentage starting at 100. The guards' default bounds are 1 and 5000, and an accepted step can overshoot them. A preview overlay shows which part of the image is in view.
- **UserControl variant.** It steps the zoom in "factor" units (`Scale / 100`). It recentres on half the scrollable size.
- **PictureAnalyser ImageEngine.** It zooms by a raw resolution factor starting at 1. The guards' default bounds are 0.01 and 50, and an accepted step can overshoot them. Loading an image resets the factor.

All three share one zoom stepper. Let `k` be the order of magnitude of the current value, so that `10^k <= s < 10^(k+1)`:

- Zoom-in adds `10^k`.
- Zoom-out subtracts `10^(k-1)` when `s` is exactly `10^k`, and `10^k` otherwise.
- The bound is checked before stepping. The result is **not** clamped.

The source reaches `k` by truncating `log10 s` toward zero. For a negative non-integer logarithm it then subtracts one. `Magnitude` models both steps over exact reals: `TruncatedLog10`, then the adjustment in `Exponent`.

Module layout:

- **`Magnitude`:** `Pow10`, the truncated logarithm, and the exponent with its decade.
- **`ScaleStep`:** the two deltas and the guarded `Step`, with their properties. It also proves that the three controls' steppers agree (`DeltasScaleByHundred`, `StepInPercent`).
- **`ViewerTypes`:** sizes, points, the bitmap, the press origin and the percent defaults.
- **`ViewerModel` and `ImageViewerControl`:** the templated control and its controller.
  - `ViewerModel` holds the control's state as a datatype, with one pure transition per handler, and the proofs about them.
  - `ImageViewerControl` holds the `ImageViewer` class, whose fields the handlers update in place. Each method ensures `State() == ViewerModel.<handler>(old(State()))`.
  - `ImageViewerController` holds a nullable reference to the control.
- **`XamlModel` and `XamlViewer`:** the UserControl variant, in the same two-part form.
- **`EngineModel` and `ImageEngineControl`:** the ImageEngine control, in the same two-part form.
- **`ImageFilter`:** the filter builder.
  - `FilterOf` is a reference definition: a join of the per-codec `description|pattern` pairs.
  - `GenerateImageFilter` is the source's loop, proved equal to `FilterOf`.
  - The lemmas prove the filter's field structure after splitting on `|`.
- **`SampleViewModel`:** the sample's main view model. It owns a controller and binds the Add and Subtract keys to zooming.

One might expect the stepped scale to stay within `[MinimumScale, MaximumScale]`, and a zoom-in followed by a zoom-out to return to the start. The code does neither: the bound is only a guard before the step. The model follows the code:

- `ScaleStep.StepOvershootsMaximum` shows 4999 going to 5999 with maximum 5000.
- `ScaleStep.IncreaseThenDecrease` shows that the round trip holds exactly when `s <= 9 * 10^k`.
- `ScaleStep.StepRoundTripFails` shows 95 going to 105 and then to 5.

## Model

| member | source | states |
|---|---|---|
| Magnitude.Pow10 | src/ImageViewer/ImageViewer.cs:314 | `Math.Pow(10, k)` for an integer exponent is a positive real |
| Magnitude.TruncatedLog10 | src/ImageViewer/ImageViewer.cs:308-309 | `Math.Truncate(Math.Log10(s))`: for s >= 1 the t with 10^t <= s < 10^(t+1); for s < 1 the t <= 0 with 10^(t-1) < s <= 10^t |
| Magnitude.Exponent | src/ImageViewer/ImageViewer.cs:308-312 | after the "-1 when the log is negative and not an integer" adjustment, s lies in decade k: 10^k <= s < 10^(k+1) |
| Magnitude.ExponentOfDecade | src/ImageViewer/ImageViewer.cs:308-312 | the adjusted exponent is the only decade containing s |
| Magnitude.ExactPow10Iff | src/ImageViewer/ImageViewer.cs:326 | the source's test `decLog == truncate` holds iff s is some power of ten |
| ScaleStep.AddedDelta | src/ImageViewer/ImageViewer.cs:306-315 | the add step d is a power of ten with 0 < d <= s < 10 d |
| ScaleStep.AddedDeltaUnique | src/ImageViewer/ImageViewer.cs:306-315 | any power of ten d with d <= s < 10 d is the add step, so the add step is exactly 10^floor(log10 s) |
| ScaleStep.SubtractDelta | src/ImageViewer/ImageViewer.cs:317-329 | the subtract step is a power of ten below s; it is s/10 when s is an exact power of ten and the add step otherwise |
| ScaleStep.Step | src/ImageViewer/ImageViewer.cs:159-173 | a zoom step stays positive; zoom-in leaves s unchanged iff s >= max and never lowers it; zoom-out leaves s unchanged iff s <= min and never raises it |
| ScaleStep.StepAccepted | src/ImageViewer/ImageViewer.cs:163-171 | once the guard passes, the step moves by exactly one delta whatever the bound |
| ScaleStep.StepOvershootsMaximum | src/ImageViewer/ImageViewer.cs:163-165 | no clamp: 4999 with maximum 5000 zooms in to 5999 |
| ScaleStep.StepInUnitDecade | src/ImageViewer/ImageViewer.cs:306-315 | between 1 and 10 every accepted zoom-in adds exactly 1 |
| ScaleStep.StepAtPowersOfTen | src/ImageViewer/ImageViewer.cs:317-329 | 10 zooms to 20 and 9, 100 zooms to 200 and 90 |
| ScaleStep.StepBelowOne | src/ImageViewer/ImageViewer.cs:311-312 | the floor adjustment below 1: 0.5 zooms to 0.6 and 0.4, and 0.1 zooms out to 0.09 |
| ScaleStep.IncreaseThenDecrease | src/ImageViewer/ImageViewer.cs:306-329 | zoom-in then zoom-out restores s exactly when s <= 9 * 10^k, both directions |
| ScaleStep.DecreaseThenIncrease | src/ImageViewer/ImageViewer.cs:306-329 | from an exact power of ten, zoom-out then zoom-in restores it and stays positive |
| ScaleStep.StepRoundTrip | src/ImageViewer/ImageViewer.cs:159-173 | with both guards passing and s <= 9 * 10^k, Step(Step(s, Increase), Decrease) == s |
| ScaleStep.StepRoundTripFails | src/ImageViewer/ImageViewer.cs:306-329 | in the top tenth of a decade the round trip fails: 95 -> 105 -> 5 |
| ScaleStep.DeltasScaleByHundred | src/ImageViewer/ImageViewer.xaml.cs:171-182 | the factor form `delta(Scale / 100) * 100` equals `delta(Scale)`, for both deltas |
| ScaleStep.StepInPercent | src/PictureAnalyser/ImageEngine/ImageEngine.xaml.cs:142-153 | a resolution s/100 between bounds min/100 and max/100 steps to one hundredth of where the percent scale s steps |
| ViewerTypes.HostExtent | src/ImageViewer/ImageViewer.cs:236-240 | host size times 100 is pixel size times scale, positive for a non-empty bitmap |
| ViewerModel.Initial | src/ImageViewer/ImageViewer.cs:65-72 | the control starts at scale 100 with bounds 1 and 5000, no image, not panning |
| ViewerModel.MapSpan | src/ImageViewer/ImageViewer.cs:269-275 | one axis of the preview: start * host == canvas * offset and length * host == canvas * viewport |
| ViewerModel.PreviewRectangle | src/ImageViewer/ImageViewer.cs:267-282 | left, top, width and height are offset and viewport mapped proportionally from host to preview canvas |
| ViewerModel.PreviewInsideCanvas | src/ImageViewer/ImageViewer.cs:267-282 | a viewport inside the host maps to a rectangle inside the preview canvas |
| ViewerModel.PreviewExamples | src/ImageViewer/ImageViewer.cs:267-282 | two worked mappings: half of a 1000-wide host is half the canvas; offset 500 of 2000 starts a quarter across |
| ViewerModel.DrawPreviewRectangle | src/ImageViewer/ImageViewer.cs:267-282 | only the preview rectangle changes, and it becomes the proportional map |
| ViewerModel.Redraw | src/ImageViewer/ImageViewer.cs:294-303 | the preview rectangle is recomputed against the current host, offsets and viewport once an image is loaded; nothing else changes, and the invariant holds |
| ViewerModel.ScaleChanged | src/ImageViewer/ImageViewer.cs:234-265 | the invariant is restored; the host is the bitmap's pixel size times scale/100, the offsets are half the host, and the preview is shown iff the host overflows the viewport; without an image nothing changes; scale, bitmap, bounds and pan state are untouched |
| ViewerModel.SetScale | src/ImageViewer/ImageViewer.cs:71-98 | the new scale is stored, the invariant holds, and bitmap, bounds and pan state are untouched |
| ViewerModel.ToScale | src/ImageViewer/ImageViewer.cs:159-173 | the scale moves exactly as `Step` does, the invariant holds, an unchanged scale means an unchanged state, and bitmap and pan state are untouched |
| ViewerModel.ImagePathChanged | src/ImageViewer/ImageViewer.cs:179-187 | the new bitmap is laid out at the unchanged scale and the invariant holds; the pan state is untouched |
| ViewerModel.MouseLeftButtonDown | src/ImageViewer/ImageViewer.cs:196-205 | the press point is recorded, the pan flag is set iff it was set or the press came from the canvas or the scroll viewer, and nothing else changes |
| ViewerModel.MouseMove | src/ImageViewer/ImageViewer.cs:207-222 | while panning, the offsets move by the opposite of the pointer's displacement and the pointer is recorded; otherwise nothing changes; once an image is loaded the preview is redrawn for the new offsets; only offsets, pointer and preview can change, and the invariant holds |
| ViewerModel.MouseLeftButtonUp | src/ImageViewer/ImageViewer.cs:224-230 | the pan flag is cleared and nothing else changes |
| ViewerModel.MouseWheel | src/ImageViewer/ImageViewer.cs:284-304 | Ctrl steps the scale as `Step` does; Shift lowers the horizontal offset by the delta; otherwise the vertical offset is lowered by the delta; without Ctrl only the offsets and preview change, and once an image is loaded the preview is redrawn for the new offsets; the invariant holds |
| ViewerModel.ScaleChangedLaysOut | src/ImageViewer/ImageViewer.cs:234-265 | host = pixels * scale / 100; offsets = host / 2; preview visible iff the host is wider or taller than the viewport, and redrawn then; no change before an image is loaded |
| ViewerModel.ToScaleBlocked | src/ImageViewer/ImageViewer.cs:159-173 | a zoom past a bound leaves the whole state unchanged |
| ViewerModel.ToScaleEffect | src/ImageViewer/ImageViewer.cs:159-173 | ToScale keeps the invariant, sets Scale to Step(Scale), changes nothing when Scale does not change, and otherwise re-lays out and recentres |
| ViewerModel.ImagePathChangedEffect | src/ImageViewer/ImageViewer.cs:179-187 | loading an image lays it out at the current scale, centred |
| ViewerModel.ButtonDownFlag | src/ImageViewer/ImageViewer.cs:196-205 | a press records the pointer; the pan flag is set iff it was set or the press came from the canvas or the scroll viewer |
| ViewerModel.MoveWithoutPanIsIdle | src/ImageViewer/ImageViewer.cs:207-230 | without the pan flag a move changes nothing, also right after a release |
| ViewerModel.MoveAll | src/ImageViewer/ImageViewer.cs:207-222 | a sequence of moves keeps the invariant, the scale, the host and the pan flag |
| ViewerModel.DragPansByPointerDisplacement | src/ImageViewer/ImageViewer.cs:207-222 | during a drag the offsets move by minus the total pointer displacement since the press, however the path is split into moves |
| ViewerModel.PlainWheelScrollsVertically | src/ImageViewer/ImageViewer.cs:298-303 | the plain wheel lowers the vertical offset by the delta and keeps scale and host |
| ViewerModel.CtrlWheelAtBound | src/ImageViewer/ImageViewer.cs:288-291 | Ctrl+wheel up at the maximum, or down at the minimum, is a no-op |
| ViewerModel.HandlersKeepInv | src/ImageViewer/ImageViewer.cs:196-304 | every handler keeps scale positive and the host matched to the scale |
| ImageViewerControl.ImageViewer.constructor | src/ImageViewer/ImageViewer.cs:65-72 | a new control is in the initial state with no controller |
| ImageViewerControl.ImageViewer.ToScale | src/ImageViewer/ImageViewer.cs:159-173 | updates the fields to ViewerModel.ToScale of the old state |
| ImageViewerControl.ImageViewer.SetScale | src/ImageViewer/ImageViewer.cs:71-78 | the Scale setter runs ScaleChanged only when the value changes |
| ImageViewerControl.ImageViewer.ImagePathChanged | src/ImageViewer/ImageViewer.cs:179-187 | updates the fields to ViewerModel.ImagePathChanged and keeps the invariant |
| ImageViewerControl.ImageViewer.ControllerChanged | src/ImageViewer/ImageViewer.cs:189-194 | stores the controller and attaches it to this control, changing no layout state |
| ImageViewerControl.ImageViewer.MouseLeftButtonDown | src/ImageViewer/ImageViewer.cs:196-205 | updates the fields to ViewerModel.MouseLeftButtonDown, and keeps the invariant |
| ImageViewerControl.ImageViewer.MouseMove | src/ImageViewer/ImageViewer.cs:207-222 | updates the fields to ViewerModel.MouseMove, and keeps the invariant |
| ImageViewerControl.ImageViewer.MouseLeftButtonUp | src/ImageViewer/ImageViewer.cs:224-230 | clears the pan flag and nothing else, and keeps the invariant |
| ImageViewerControl.ImageViewer.MouseWheel | src/ImageViewer/ImageViewer.cs:284-304 | updates the fields to ViewerModel.MouseWheel |
| ImageViewerControl.ImageViewer.ScaleChanged | src/ImageViewer/ImageViewer.cs:234-265 | updates the fields to ViewerModel.ScaleChanged |
| ImageViewerControl.ImageViewer.DrawPreviewRectangle | src/ImageViewer/ImageViewer.cs:267-282 | updates the preview rectangle fields to ViewerModel.DrawPreviewRectangle |
| ImageViewerControl.ImageViewerController.constructor | src/WPF/ImageViewer/Controller/ImageViewerController.cs:5 | a new controller drives no control |
| ImageViewerControl.ImageViewerController.Init | src/WPF/ImageViewer/Controller/ImageViewerController.cs:7-10 | Init stores the control to drive |
| ImageViewerControl.ImageViewerController.IncreaseScale | src/WPF/ImageViewer/Controller/ImageViewerController.cs:12-15 | with a control attached its state becomes ViewerModel.ToScale(old, Increase); with none nothing happens |
| ImageViewerControl.ImageViewerController.DecreaseScale | src/WPF/ImageViewer/Controller/ImageViewerController.cs:17-20 | with a control attached its state becomes ViewerModel.ToScale(old, Decrease); with none nothing happens |
| ImageViewerControl.ReattachDrivesLatest | src/WPF/ImageViewer/Controller/ImageViewerController.cs:7-15 | after Init(first) then Init(second), IncreaseScale zooms the second control and leaves the first unchanged |
| ImageViewerControl.UnattachedControllerIsInert | src/WPF/ImageViewer/Controller/ImageViewerController.cs:12-20 | before any Init both calls leave every control unchanged |
| XamlModel.Initial | src/ImageViewer/ImageViewer.xaml.cs:36-43 | scale 100, bounds 1 and 5000, no image, not panning |
| XamlModel.FactorAddedDelta | src/ImageViewer/ImageViewer.xaml.cs:175 | `GetAddedDeltaResolution(Scale / 100) * 100` is the same step as on Scale |
| XamlModel.FactorSubtractDelta | src/ImageViewer/ImageViewer.xaml.cs:181 | `GetSubtractDeltaResolution(Scale / 100) * 100` is the same step as on Scale |
| XamlModel.GetMousePositionOffsets | src/ImageViewer/ImageViewer.xaml.cs:224-237 | a result exists iff 0 < x < width and 0 < y < height; it is then (100 x / width, 100 y / height), each strictly between 0 and 100 |
| XamlModel.ScaleChanged | src/ImageViewer/ImageViewer.xaml.cs:154-161 | only the host changes, and with an image it becomes the pixel size times scale/100 |
| XamlModel.SetScale | src/ImageViewer/ImageViewer.xaml.cs:42-58 | the new scale is stored and the invariant holds; only scale and host change |
| XamlModel.Recentre | src/ImageViewer/ImageViewer.xaml.cs:184-185 | both offsets become half the scrollable size, and nothing else changes |
| XamlModel.MouseWheel | src/ImageViewer/ImageViewer.xaml.cs:163-191 | Ctrl steps the scale as `Step` does; otherwise only the vertical offset changes, lowered by the delta; the invariant holds |
| XamlModel.ImagePathChanged | src/ImageViewer/ImageViewer.xaml.cs:98-105 | the new bitmap is laid out at the unchanged scale and the invariant holds; offsets and pan state are untouched |
| XamlModel.MouseLeftButtonDown | src/ImageViewer/ImageViewer.xaml.cs:107-116 | the press point is recorded, the pan flag is set iff it was set or the press came from the canvas or the scroll viewer, and nothing else changes |
| XamlModel.MouseMove | src/ImageViewer/ImageViewer.xaml.cs:118-142 | while panning, the offsets move by the opposite of the pointer's displacement and the pointer is recorded; otherwise nothing changes |
| XamlModel.MouseLeftButtonUp | src/ImageViewer/ImageViewer.xaml.cs:144-150 | the pan flag is cleared and nothing else changes |
| XamlModel.CtrlWheelSteps | src/ImageViewer/ImageViewer.xaml.cs:163-191 | Ctrl+wheel sets Scale to Step(Scale) and keeps the invariant; an accepted step resizes the host and recentres on half the scrollable size; a blocked one changes nothing |
| XamlModel.CtrlWheelAtBound | src/ImageViewer/ImageViewer.xaml.cs:171-181 | Ctrl+wheel up at the maximum, or down at the minimum, is a no-op |
| XamlModel.PlainWheelScrollsVertically | src/ImageViewer/ImageViewer.xaml.cs:187-190 | without Ctrl the wheel only lowers the vertical offset by the delta |
| XamlModel.ImagePathChangedSizesHost | src/ImageViewer/ImageViewer.xaml.cs:154-161 | loading an image sizes the host to pixels * Scale / 100 and keeps the offsets |
| XamlModel.DragPans | src/ImageViewer/ImageViewer.xaml.cs:107-150 | press on canvas or scroll viewer, then move: offsets move by minus the pointer delta; after a release moves do nothing |
| XamlModel.PressElsewhereDoesNotPan | src/ImageViewer/ImageViewer.xaml.cs:107-116 | a press elsewhere records the point but does not start a pan |
| XamlViewer.ImageViewer.constructor | src/ImageViewer/ImageViewer.xaml.cs:36-43 | a new control is in XamlModel.Initial |
| XamlViewer.ImageViewer.ImagePathChanged | src/ImageViewer/ImageViewer.xaml.cs:98-105 | updates the fields to XamlModel.ImagePathChanged and keeps the invariant |
| XamlViewer.ImageViewer.MouseLeftButtonDown | src/ImageViewer/ImageViewer.xaml.cs:107-116 | updates the fields to XamlModel.MouseLeftButtonDown, and keeps the invariant |
| XamlViewer.ImageViewer.MouseMove | src/ImageViewer/ImageViewer.xaml.cs:118-142 | updates the fields to XamlModel.MouseMove, and keeps the invariant |
| XamlViewer.ImageViewer.MouseLeftButtonUp | src/ImageViewer/ImageViewer.xaml.cs:144-150 | clears the pan flag and nothing else, and keeps the invariant |
| XamlViewer.ImageViewer.ScaleChanged | src/ImageViewer/ImageViewer.xaml.cs:154-161 | updates the host fields to XamlModel.ScaleChanged |
| XamlViewer.ImageViewer.SetScale | src/ImageViewer/ImageViewer.xaml.cs:42-59 | the Scale setter runs ScaleChanged only when the value changes |
| XamlViewer.ImageViewer.MouseWheel | src/ImageViewer/ImageViewer.xaml.cs:163-191 | updates the fields to XamlModel.MouseWheel and keeps the invariant |
| EngineModel.EngineExtent | src/PictureAnalyser/ImageEngine/ImageEngine.xaml.cs:186-193 | the host for a resolution factor is positive for a non-empty bitmap |
| EngineModel.EngineExtentIsPercentExtent | src/PictureAnalyser/ImageEngine/ImageEngine.xaml.cs:186-193 | pixel * resolution (no /100) is the percent host extent at 100 times the factor |
| EngineModel.Initial | src/PictureAnalyser/ImageEngine/ImageEngine.xaml.cs:13-41 | resolution starts at 1, with bounds 0.01 and 50 |
| EngineModel.UpdateScale | src/PictureAnalyser/ImageEngine/ImageEngine.xaml.cs:186-193 | only the host changes, and with an image it becomes the pixel size times the resolution |
| EngineModel.ImagePathChanged | src/PictureAnalyser/ImageEngine/ImageEngine.xaml.cs:84-96 | the new bitmap is taken, the resolution is reset to 1 and the host is the pixel size; nothing else changes |
| EngineModel.MouseWheel | src/PictureAnalyser/ImageEngine/ImageEngine.xaml.cs:134-161 | the invariant holds; left Ctrl moves the resolution exactly as `Step` does and changes only resolution and host; otherwise only the vertical offset changes, lowered by the delta |
| EngineModel.MouseLeftButtonDown | src/PictureAnalyser/ImageEngine/ImageEngine.xaml.cs:98-107 | the press point is recorded, the pan flag is set iff it was set or the press came from the canvas or the scroll viewer, and nothing else changes |
| EngineModel.MouseMove | src/PictureAnalyser/ImageEngine/ImageEngine.xaml.cs:109-122 | while panning, the offsets move by the opposite of the pointer's displacement and the pointer is recorded; otherwise nothing changes |
| EngineModel.MouseLeftButtonUp | src/PictureAnalyser/ImageEngine/ImageEngine.xaml.cs:124-130 | the pan flag is cleared and nothing else changes |
| EngineModel.ImagePathChangedResets | src/PictureAnalyser/ImageEngine/ImageEngine.xaml.cs:84-96 | loading resets the resolution to 1 whatever it was, so the host takes the bitmap's pixel size; offsets unchanged |
| EngineModel.CtrlWheelSteps | src/PictureAnalyser/ImageEngine/ImageEngine.xaml.cs:134-161 | Ctrl+wheel sets the resolution to Step(resolution), keeps it positive, resizes the host by UpdateScale and keeps the offsets; a blocked step changes nothing |
| EngineModel.AcceptedWheelUpdates | src/PictureAnalyser/ImageEngine/ImageEngine.xaml.cs:155 | after an accepted step UpdateScale sets host = pixels * new resolution |
| EngineModel.CtrlWheelAtBound | src/PictureAnalyser/ImageEngine/ImageEngine.xaml.cs:142-153 | at a bound Ctrl+wheel leaves resolution, host and everything else unchanged |
| EngineModel.PlainWheelScrollsVertically | src/PictureAnalyser/ImageEngine/ImageEngine.xaml.cs:157-160 | without left Ctrl the wheel only lowers the vertical offset by the delta |
| EngineModel.SubUnitSteps | src/PictureAnalyser/ImageEngine/ImageEngine.xaml.cs:163-184 | from a loaded image at resolution 0.5 the wheel gives 0.6 and 0.4; from 0.1 zooming out gives 0.09 |
| EngineModel.MatchesPercentScale | src/PictureAnalyser/ImageEngine/ImageEngine.xaml.cs:134-184 | a resolution of s / 100 with the default bounds steps to Step(s) / 100 of the percent viewer, and the host extents coincide |
| EngineModel.DragPans | src/PictureAnalyser/ImageEngine/ImageEngine.xaml.cs:98-130 | press on canvas or scroll viewer, then move: offsets move by minus the pointer delta; resolution and host untouched; after a release moves do nothing |
| EngineModel.PressElsewhereDoesNotPan | src/PictureAnalyser/ImageEngine/ImageEngine.xaml.cs:98-107 | a press elsewhere records the point but does not start a pan |
| ImageEngineControl.ImageEngine.constructor | src/PictureAnalyser/ImageEngine/ImageEngine.xaml.cs:13-41 | a new engine is in EngineModel.Initial |
| ImageEngineControl.ImageEngine.ImagePathChanged | src/PictureAnalyser/ImageEngine/ImageEngine.xaml.cs:84-96 | updates the fields to EngineModel.ImagePathChanged and establishes the invariant |
| ImageEngineControl.ImageEngine.MouseLeftButtonDown | src/PictureAnalyser/ImageEngine/ImageEngine.xaml.cs:98-107 | updates the fields to EngineModel.MouseLeftButtonDown, and keeps the invariant |
| ImageEngineControl.ImageEngine.MouseMove | src/PictureAnalyser/ImageEngine/ImageEngine.xaml.cs:109-122 | updates the fields to EngineModel.MouseMove, and keeps the invariant |
| ImageEngineControl.ImageEngine.MouseLeftButtonUp | src/PictureAnalyser/ImageEngine/ImageEngine.xaml.cs:124-130 | clears the pan flag and nothing else, and keeps the invariant |
| ImageEngineControl.ImageEngine.MouseWheel | src/PictureAnalyser/ImageEngine/ImageEngine.xaml.cs:134-161 | updates the fields to EngineModel.MouseWheel and keeps the invariant |
| ImageEngineControl.ImageEngine.UpdateScale | src/PictureAnalyser/ImageEngine/ImageEngine.xaml.cs:186-193 | updates the host fields to EngineModel.UpdateScale |
| ImageFilter.ReplaceAll | src/WPF/ImageViewerSample/ViewModels/MainViewModel.cs:82 | `Replace("Codec", "Files")` keeps the length when pattern and replacement are equally long, and leaves strings shorter than the pattern alone |
| ImageFilter.ReplaceAllKeepsOut | src/WPF/ImageViewerSample/ViewModels/MainViewModel.cs:82 | replacing brings in no character that is in neither the input nor the replacement |
| ImageFilter.Trim | src/WPF/ImageViewerSample/ViewModels/MainViewModel.cs:82 | `Trim()` never lengthens, and a non-empty result neither starts nor ends with white space |
| ImageFilter.TrimIsSlice | src/WPF/ImageViewerSample/ViewModels/MainViewModel.cs:82 | the trimmed string is a contiguous piece of the input, and all that is cut off on either side is white space |
| ImageFilter.TrimKeepsOut | src/WPF/ImageViewerSample/ViewModels/MainViewModel.cs:82 | trimming brings in no character |
| ImageFilter.TrimBlank | src/WPF/ImageViewerSample/ViewModels/MainViewModel.cs:82 | a string of white space trims to the empty string |
| ImageFilter.IsWhiteSpace | src/WPF/ImageViewerSample/ViewModels/MainViewModel.cs:82 | `char.IsWhiteSpace`: space, tab, line feed and carriage return are white space, and no visible ASCII character is |
| ImageFilter.ReplaceKeepsPrefix | src/WPF/ImageViewerSample/ViewModels/MainViewModel.cs:82 | a lead-in holding no 'C' passes through the replacement unchanged |
| ImageFilter.DisplayNameOfBuiltIn | src/WPF/ImageViewerSample/ViewModels/MainViewModel.cs:82 | a system codec named "Built-in K Codec" is shown as "K Files", for every kind K without 'C' and without white space at its ends (so "Built-in BMP Codec" gives "BMP Files") |
| ImageFilter.DisplayName | src/WPF/ImageViewerSample/ViewModels/MainViewModel.cs:82 | the displayed name is no longer than the name past its first 8 characters, and neither starts nor ends with white space |
| ImageFilter.Description | src/WPF/ImageViewerSample/ViewModels/MainViewModel.cs:82 | "name (extension)": the display name, then " (", exactly the codec's extension, and ")" |
| ImageFilter.Entry | src/WPF/ImageViewerSample/ViewModels/MainViewModel.cs:83 | the description, one separator, then the extension as pattern |
| ImageFilter.SplitEntry | src/WPF/ImageViewerSample/ViewModels/MainViewModel.cs:82-83 | with no '\|' in name or extension, a codec's pair splits back into its description and its pattern |
| ImageFilter.Join | src/WPF/ImageViewerSample/ViewModels/MainViewModel.cs:83-84 | joining nothing gives the empty string, and a join ends with its last piece |
| ImageFilter.JoinStartsWithFirst | src/WPF/ImageViewerSample/ViewModels/MainViewModel.cs:83-84 | a join starts with its first piece |
| ImageFilter.SplitJoin | src/WPF/ImageViewerSample/ViewModels/MainViewModel.cs:83-84 | splitting a join of separator-free pieces gives the pieces back |
| ImageFilter.Entries | src/WPF/ImageViewerSample/ViewModels/MainViewModel.cs:80-85 | one pair per codec |
| ImageFilter.FirstUnnamed | src/WPF/ImageViewerSample/ViewModels/MainViewModel.cs:82 | the first codec whose name is shorter than 8, where `Substring(8)` throws |
| ImageFilter.FilterOf | src/WPF/ImageViewerSample/ViewModels/MainViewModel.cs:73-90 | fails iff some codec name is shorter than 8 characters |
| ImageFilter.GenerateImageFilter | src/WPF/ImageViewerSample/ViewModels/MainViewModel.cs:73-90 | the loop over codecs returns exactly FilterOf: the first short name is the failure, otherwise the joined pairs between the fixed pairs |
| ImageFilter.AppendEntry | src/WPF/ImageViewerSample/ViewModels/MainViewModel.cs:83-84 | each codec adds its pair after a separator, with none before the first |
| ImageFilter.Split | src/WPF/ImageViewerSample/ViewModels/MainViewModel.cs:73-90 | the fields of a filter between its separators; there is always at least one |
| ImageFilter.SplitConcat | src/WPF/ImageViewerSample/ViewModels/MainViewModel.cs:83 | splitting at a separator splits each side on its own |
| ImageFilter.SplitCount | src/WPF/ImageViewerSample/ViewModels/MainViewModel.cs:73-90 | there is one more field than there are separators |
| ImageFilter.PiecesAlternate | src/WPF/ImageViewerSample/ViewModels/MainViewModel.cs:80-85 | codec i contributes field 2i, "name (ext)", and field 2i+1, its pattern, in input order |
| ImageFilter.DescriptionHasNoSeparator | src/WPF/ImageViewerSample/ViewModels/MainViewModel.cs:82-83 | when name and extension hold no '\|', the displayed description holds none |
| ImageFilter.FilterFields | src/WPF/ImageViewerSample/ViewModels/MainViewModel.cs:73-90 | with no '\|' in names or extensions, the fields are "All Files (*.*)", "*.*", each codec's description and pattern in order, then "ICO Files (*.ICO)", "*.ico" |
| ImageFilter.FilterBarCount | src/WPF/ImageViewerSample/ViewModels/MainViewModel.cs:73-90 | under the same condition the filter holds exactly 2n + 3 separators |
| ImageFilter.FilterFrame | src/WPF/ImageViewerSample/ViewModels/MainViewModel.cs:75-87 | every filter starts with "All Files (*.*)\|*.*\|" and ends with "ICO Files (*.ICO)\|*.ico" |
| ImageFilter.FilterOfNoCodecs | src/WPF/ImageViewerSample/ViewModels/MainViewModel.cs:75-87 | with no codecs the filter is exactly "All Files (*.*)\|*.*\|ICO Files (*.ICO)\|*.ico" |
| SampleViewModel.FirstBinding | src/WPF/ImageViewerSample/ViewModels/MainViewModel.cs:39-40 | the first binding for a key, if any: no earlier binding has the key |
| SampleViewModel.CommandFor | src/WPF/ImageViewerSample/ViewModels/MainViewModel.cs:39-40 | a command is found iff some binding has the key, and it is the command of the first such binding |
| SampleViewModel.DefaultBindingsDispatch | src/WPF/ImageViewerSample/ViewModels/MainViewModel.cs:39-40 | Add is bound to IncreaseScale, Subtract to DecreaseScale, any other key to nothing |
| SampleViewModel.MainViewModel.constructor | src/WPF/ImageViewerSample/ViewModels/MainViewModel.cs:32-41 | a fresh, unattached controller and exactly the two key bindings, in order |
| SampleViewModel.MainViewModel.IncreaseScale | src/WPF/ImageViewerSample/ViewModels/MainViewModel.cs:68-71 | delegates to Controller.IncreaseScale and does nothing else |
| SampleViewModel.MainViewModel.DecreaseScale | src/WPF/ImageViewerSample/ViewModels/MainViewModel.cs:63-66 | delegates to Controller.DecreaseScale and does nothing else |
| SampleViewModel.MainViewModel.KeyDown | src/WPF/ImageViewerSample/ViewModels/MainViewModel.cs:39-40 | a bound key runs its command on the attached control; an unbound key changes nothing |
| SampleViewModel.AddThenSubtract | src/WPF/ImageViewerSample/ViewModels/MainViewModel.cs:39-40 | once attached, Add then Subtract leaves the control at ToScale(ToScale(s, Increase), Decrease) |

## Left out

- Floating point and decimal rounding. `Math.Log10`, `Math.Pow`, the decimal/double casts and the preview geometry are modelled over exact reals. The double logarithm can disagree with exact arithmetic near powers of ten such as 0.01.
- WPF layout. `UpdateLayout`, `ActualWidth` and the clamping of `ScrollToHorizontalOffset`/`ScrollToVerticalOffset` to `[0, scrollable]` are not modelled. Offsets are the values the control requests.
- Layout-supplied sizes. The templated control's viewport and preview-canvas sizes, and the UserControl's `ScrollableWidth`/`ScrollableHeight`, are part of the state, and no handler changes them. The extent used for recentring is taken to be the host size.
- ViewerModel.ScaleChanged, XamlModel.ScaleChanged, EngineModel.UpdateScale: before any image is loaded the source dereferences a null bitmap and throws. The model leaves the state unchanged instead.
- ViewerModel.MouseWheel, ViewerModel.MouseMove: before an image is loaded the source draws the preview against a host whose size is unset (NaN). The model skips that drawing.
- Mouse capture, cursors and `Keyboard.IsKeyDown`. The modifier state and the press origin are parameters.
- Image decoding. `BitmapImage` loading becomes the pixel width and height passed to `ImagePathChanged`. A zero-pixel bitmap is excluded: the image-loading members require both sizes to be positive.
- The codec list. `ImageCodecInfo.GetImageEncoders` becomes the codec sequence passed to `GenerateImageFilter`.
- `OpenImage` and the file dialog are I/O. Only the filter string they use is modelled.
- MinimumScale, MaximumScale, MinimumResolution, MaximumResolution: these are plain settable properties with no callback. The model has no setter for them. The general lemmas hold for any bounds; `EngineModel.MatchesPercentScale` and the worked examples use the defaults.
- Key bindings carry no modifier keys (the source uses `ModifierKeys.None`). `KeyDown` stands in for WPF's input-binding dispatch.
- Windows, theming, IoC wiring, application start-up and the logger are out of scope. So are the other two view models (PictureAnalyser and the Avalonia variant), `DecimalToStringConverter` and `NotFindTemplateChildException`.
- ImageFilter.Trim uses the white-space set of `char.IsWhiteSpace` written out by code point. It covers no other culture- or version-specific behaviour.
- ImageFilter.DisplayName: a Dafny string is a sequence of Unicode scalar values, while .NET's `Substring(8)` counts UTF-16 code units. The two agree for names without characters outside the Basic Multilingual Plane, such as the ASCII codec names.
