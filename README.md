# Direct3D 11 workshop template: a verified model of its core

The workshop template is a small Windows program. It opens a setup dialog, where the user picks an adapter, a display mode, an aspect-ratio override, multisampling, windowed mode and vertical sync. It then creates a window and a Direct3D 11 device, and runs a frame loop that draws a full-screen quad. The quad is letterboxed or pillarboxed so the 16:9 content keeps its shape on any display.

This project models the logic underneath that glue, in Dafny:

- **Aspect ratios** (`aspect_ratio.dfy`, module `AspectRatios`). Euclid's GCD, reduction to lowest terms, `GetRatio`, `GetDesc`, and the `==` and `<` operators of the setup dialog's `AspectRatio` class.
- **The aspect-ratio list** (`aspect_list.dfy`, module `AspectRatioLists`). The dialog's list of ratios as a class over a sequence. It is cleared, filled one entry per display mode, then stably sorted with `<` and cleared of adjacent `==` duplicates. The module also holds the corrected list described under Findings. The dialog model itself uses the list as written.
- **The OK button** (`setup_dialog.dfy`, module `SetupDialog`). How combo-box positions become adapter, output, display mode, aspect override and multisample count, and what the dialog reports when it ends.
- **Viewports** (`viewport.dfy`, module `Viewports`). The full, centred-adjusted and scene viewports, over reals.
- **The frame** (`render.dfy`, module `Render`). The quad's six vertices, and `RenderFrame` over a device context that records the viewport in force for each clear and draw.
- **Window messages** (`app_window.dfy`, module `AppWindow`). The window procedure's flags and the frame loop's `UpdateAppWindow` step, as a specification over window states and a class tied to it.
- **The entry point** (`app_main.dfy`, module `AppMain`). The multisample description, sync interval, automatic aspect, the render loop with its windowed FPS frame counter, and the exit code.
- **Platform helpers**. `IsPowerOfTwo` on 32-bit vectors (`platform.dfy`) and the multiplicative `StringHash` with 32-bit wrap-around and signed `char` (`string_util.dfy`).
- **Buffers** (`buffers.dfy`). The buffer wrappers: a fixed-size buffer that is always uploaded whole, the 16-byte multiple rule for constant buffers, and the zeroed local copy of a typed constant buffer.
- **Settings** (`settings.dfy`). The constants of `Settings.h` and the display-mode record.

Code and description disagree in a few places. The model follows the code:

- The `IDOK` case of the dialog procedure has no `break`. It falls through into `IDCANCEL`, whose `EndDialog(hDialog, LOWORD(wParam))` ends the dialog with the OK code. So OK still ends the dialog with "proceed", as `DialogOutcome` states.
- The `WM_ACTIVATE` case falls through into `WM_SIZE`, which does nothing.
- `Settings.h` defines `FORCE_SETUP_DIALOG`, so the dialog is always shown. The development defaults of the other branch are modelled as `AppMain.DevelopmentLaunch`.
- The clear colour at `D3D.cpp:266` is commented "black" but is (0, 0, 0.4, 0), a dark blue. `Render.ClearColor` uses the value.

## Model

| member | source | states |
|---|---|---|
| AspectRatios.Gcd | Y2-PostProcessing/code/SetupDialog.cpp:29-32 | Euclid's recursion terminates on its second argument. The result divides both inputs, is positive unless both are zero, and is at most each nonzero input. |
| AspectRatios.GcdGreatest | Y2-PostProcessing/code/SetupDialog.cpp:29-32 | Every common divisor of the inputs divides their GCD. |
| AspectRatios.Make | Y2-PostProcessing/code/SetupDialog.cpp:21-39 | Construction needs a nonzero width and height. It keeps the resolution and yields a numerator and denominator of at least 1, no larger than width and height. |
| AspectRatios.ReduceCorrect | Y2-PostProcessing/code/SetupDialog.cpp:34-39 | Reduction leaves numerator and denominator coprime (their GCD is 1). They name the same ratio (numerator·height = denominator·width), and width and height are the GCD times them. |
| AspectRatios.ReduceExample | Y2-PostProcessing/code/SetupDialog.cpp:55 | 1600x1024 reduces to 25:16. |
| AspectRatios.GetRatio | Y2-PostProcessing/code/SetupDialog.cpp:42-45 | The ratio is positive exactly when the numerator is. |
| AspectRatios.GetRatioIsWidthOverHeight | Y2-PostProcessing/code/SetupDialog.cpp:42-45 | The ratio of a constructed value equals its width over its height. |
| AspectRatios.Same | Y2-PostProcessing/code/SetupDialog.cpp:62-65 | `==` is reflexive, and `==` ratios have equal values. |
| AspectRatios.Less | Y2-PostProcessing/code/SetupDialog.cpp:67-70 | `<` never holds between `==` ratios. It agrees with the order of the values when the denominators are equal. |
| AspectRatios.SameIffCrossEqual | Y2-PostProcessing/code/SetupDialog.cpp:62-65 | `==` of two constructed ratios holds iff w1·h2 = w2·h1. |
| AspectRatios.SameIffEqualRatio | Y2-PostProcessing/code/SetupDialog.cpp:62-65 | `==` of constructed ratios holds iff their `GetRatio` values are equal. |
| AspectRatios.SameExample | Y2-PostProcessing/code/SetupDialog.cpp:62-65 | 1920x1080 == 1280x720. |
| AspectRatios.Decimal | Y2-PostProcessing/code/SetupDialog.cpp:50 | An unsigned number prints as a non-empty run of decimal digits. |
| AspectRatios.DecimalRoundTrip | Y2-PostProcessing/code/SetupDialog.cpp:50 | Parsing the printed digits gives the number back. |
| AspectRatios.GetDesc | Y2-PostProcessing/code/SetupDialog.cpp:47-60 | The description starts with "numerator:denominator". Text follows iff numerator > 16 or denominator > 10, and that text is " (WxH, ratio: R)". |
| AspectRatios.DescPrefixIffSame | Y2-PostProcessing/code/SetupDialog.cpp:50 | Two descriptions have the same head iff the ratios are `==`. |
| AspectRatios.DescExamples | Y2-PostProcessing/code/SetupDialog.cpp:52-57 | 1600x1024 gets the extra detail; 1920x1080 (16:9) does not. |
| AspectRatioLists.StableSort | Y2-PostProcessing/code/SetupDialog.cpp:198 | `list::sort` returns a permutation of its input: same length, same multiset. |
| AspectRatioLists.DropAdjacentSame | Y2-PostProcessing/code/SetupDialog.cpp:199 | `list::unique` never lengthens the list. It keeps the first entry, so a non-empty list stays non-empty. |
| AspectRatioLists.StableSortCorrect | Y2-PostProcessing/code/SetupDialog.cpp:197-198 | The list sort is ordered by key. It is stable: the entries with any one key keep their order. |
| AspectRatioLists.UniqueCorrect | Y2-PostProcessing/code/SetupDialog.cpp:199 | `unique` keeps only entries of its input and leaves no two adjacent entries `==`. Every input entry is still `==` to some kept entry, and a sorted input stays sorted. It drops exactly the entries `==` to the entry before them in the input, which is the list `KeptWhere` keeps. |
| AspectRatioLists.RatiosOf | Y2-PostProcessing/code/SetupDialog.cpp:187-195 | One ratio per enumerated mode, in mode order, each the reduced width x height of its mode. |
| AspectRatioLists.AspectChoices | Y2-PostProcessing/code/SetupDialog.cpp:184-199 | The list as written offers at most one entry per mode. It is empty iff there are no modes. |
| AspectRatioLists.AspectRatioList.Clear | Y2-PostProcessing/code/SetupDialog.cpp:184 | The list is empty afterwards. |
| AspectRatioLists.AspectRatioList.PushBack | Y2-PostProcessing/code/SetupDialog.cpp:194 | The ratio is appended at the end. |
| AspectRatioLists.NumeratorKeyIsLess | Y2-PostProcessing/code/SetupDialog.cpp:67-70 | Ordering by numerator is exactly `operator <`. |
| AspectRatioLists.AspectRatioList.Sort | Y2-PostProcessing/code/SetupDialog.cpp:198 | The list becomes the stable sort of its old contents by the given key: the numerator for `<` as written, the ratio value for the corrected order. |
| AspectRatioLists.AspectRatioList.Unique | Y2-PostProcessing/code/SetupDialog.cpp:199 | The list loses each entry that is `==` to its predecessor. |
| AspectRatioLists.AspectRatioList.Populate | Y2-PostProcessing/code/SetupDialog.cpp:184-199 | Clearing, pushing one ratio per mode, sorting with `<` and de-duplicating leaves exactly the list `AspectChoices` of the modes. |
| AspectRatioLists.AspectChoicesCorrect | Y2-PostProcessing/code/SetupDialog.cpp:184-199 | The offered list is non-decreasing in numerator with no two adjacent entries `==`. Every mode's ratio is represented, and every entry is the ratio of some mode. |
| AspectRatioLists.ChoicesFromModes | Y2-PostProcessing/code/SetupDialog.cpp:187-199 | Every list entry is a reduced ratio of some enumerated mode. |
| AspectRatioLists.AspectChoicesKeepsDuplicate | Y2-PostProcessing/code/SetupDialog.cpp:67-70 | Modes 1280x768, 1280x1024 and 1600x960 leave the list 5:3, 5:4, 5:3: the same ratio twice. |
| AspectRatioLists.AspectChoicesByValueDistinct | Y2-PostProcessing/code/SetupDialog.cpp:197-199 | Sorting by ratio value instead leaves values strictly increasing and no two entries `==`, with every mode still represented. |
| AspectRatioLists.AspectChoicesByValueDescriptionsDistinct | Y2-PostProcessing/code/SetupDialog.cpp:201-205 | With the corrected list, no two combo-box entries start with the same "n:d" text. |
| SetupDialog.MultiSamplesFor | Y2-PostProcessing/code/SetupDialog.cpp:328-350 | Index k < 4 gives 2^k samples (1, 2, 4, 8); any other index gives 1. |
| SetupDialog.MultiSamplesArePowersOfTwo | Y2-PostProcessing/code/SetupDialog.cpp:328-350 | Every count is in {1, 2, 4, 8} and passes `IsPowerOfTwo`. |
| SetupDialog.OkSettings | Y2-PostProcessing/code/SetupDialog.cpp:280-350 | OK stores the windowed and vertical-sync toggles as checked, and the multisample count of the selected index. |
| SetupDialog.OkWindowed | Y2-PostProcessing/code/SetupDialog.cpp:315-325 | Windowed: adapter 0, output 0, automatic aspect (-1), display mode left unchanged. |
| SetupDialog.OkFullScreen | Y2-PostProcessing/code/SetupDialog.cpp:286-314 | Full screen: the selected adapter, output and mode, the mode's format forced to gamma-corrected. Aspect index 0 is automatic; index k names list entry k-1, whose ratio is never -1. |
| SetupDialog.OkAspectIsModeRatio | Y2-PostProcessing/code/SetupDialog.cpp:296-310 | With the list built from the enumerated modes, an override is positive and equals the width over height of some enumerated mode. |
| SetupDialog.SettingsTargets.OnOk | Y2-PostProcessing/code/SetupDialog.cpp:280-350 | Writing through the reference parameters leaves exactly `OkSettings` of the previous values. |
| SetupDialog.DialogOutcome | Y2-PostProcessing/code/SetupDialog.cpp:447-459 | The program proceeds iff OK ended the dialog. An error message is recorded iff the dialog could not be shown. |
| Platform.IsPowerOfTwo | Y2-PostProcessing/code/Platform.h:60-63 | The test `X != 0 && X & (~X + 1) == X` is equivalent to `X != 0 && X & (X - 1) == 0`. |
| Platform.LowestSetBit | Y2-PostProcessing/code/Platform.h:62 | `X & (~X + 1)` with 32-bit wrap-around is the lowest set bit of X. |
| Platform.PowersAccepted | Y2-PostProcessing/code/Platform.h:60-63 | 1 << k is accepted for every k in 0..31. |
| Platform.ZeroRejected | Y2-PostProcessing/code/Platform.h:62 | 0 is rejected. |
| Platform.TwoBitsRejected | Y2-PostProcessing/code/Platform.h:60-63 | A value with two distinct set bits is rejected. |
| Platform.AcceptedArePowers | Y2-PostProcessing/code/Platform.h:60-63 | Every accepted value is 1 << k for some k < 32. |
| StringUtil.SignExtend | Y2-PostProcessing/code/Platform/StringUtil.h:16-17 | A `char` byte is read as a value in [-128, 128) that agrees with the byte mod 256. |
| StringUtil.StringHash | Y2-PostProcessing/code/Platform/StringUtil.h:13-20 | The loop computes the left fold `Hash` from the seed. That equals the unbounded polynomial seed·101^n + Σ c_i·101^(n-1-i) reduced mod 2^32. |
| StringUtil.HashIsPolynomialModulo | Y2-PostProcessing/code/Platform/StringUtil.h:15-17 | The wrapped fold equals the unwrapped recurrence reduced mod 2^32, whatever the length and seed. |
| StringUtil.HashConcat | Y2-PostProcessing/code/Platform/StringUtil.h:16-17 | Hashing a + b continues from the hash of a. |
| StringUtil.HashAppend | Y2-PostProcessing/code/Platform/StringUtil.h:16-17 | Appending c gives (hash·101 + c) mod 2^32. |
| StringUtil.HashShort | Y2-PostProcessing/code/Platform/StringUtil.h:13-20 | The empty string hashes to the seed; one character is one step. |
| StringUtil.HighBytesSubtract | Y2-PostProcessing/code/Platform/StringUtil.h:16-17 | 'A' adds 65, but byte 0xE9 adds -23 (mod 2^32), not 233. |
| Buffers.Buffer.constructor | Y2-Direct3D11/code/D3D/Buffers.h:15-18 | The size is fixed at construction. |
| Buffers.Buffer.Upload | Y2-Direct3D11/code/D3D/Buffers.h:25-37 | It needs exactly `size` bytes. The whole contents become the first `size` bytes of the data. |
| Buffers.Buffer.GetSize | Y2-Direct3D11/code/D3D/Buffers.h:42 | Returns the size, which is the length of the contents. |
| Buffers.VectorMultipleIsDivisibleBy16 | Y2-Direct3D11/code/D3D/Buffers.h:91-92 | The low-four-bits-clear test is exactly divisibility by 16. |
| Buffers.ConstantBufferGPU.constructor | Y2-Direct3D11/code/D3D/Buffers.h:87-93 | A constant buffer's byte size must pass the 16-byte test. |
| Buffers.ConstantBufferGPU.Upload | Y2-Direct3D11/code/D3D/Buffers.h:97-100 | Same contract as the plain buffer's upload. |
| Buffers.ConstantBuffer.constructor | Y2-Direct3D11/code/D3D/Buffers.h:115-119 | The local copy has the buffer's size and is all zero. |
| Buffers.ConstantBuffer.Upload | Y2-Direct3D11/code/D3D/Buffers.h:123-126 | The buffer then holds exactly the local copy. |
| Viewports.ComputeViewports | Y2-Direct3D11/code/D3D.cpp:132-184 | The full viewport is at (0,0), the back buffer's size, depth [0,1]. The scene viewport is the adjusted one moved to (0,0). |
| Viewports.Letterbox | Y2-Direct3D11/code/D3D.cpp:148-154 | A narrower display keeps full width and a height scaled by display/render, strictly smaller. |
| Viewports.Pillarbox | Y2-Direct3D11/code/D3D.cpp:155-161 | A wider display keeps full height and a width scaled by render/display, strictly smaller. |
| Viewports.NoBars | Y2-Direct3D11/code/D3D.cpp:162-166 | Equal aspects give the full viewport. |
| Viewports.Centred | Y2-Direct3D11/code/D3D.cpp:171-176 | 2·origin + size = full on each axis. Origins are non-negative and sizes within the back buffer. |
| Viewports.OneAxisPadded | Y2-Direct3D11/code/D3D.cpp:148-168 | The adjusted width or height is always the full one: never bars on all sides. |
| Viewports.ContentAspectKept | Y2-Direct3D11/code/D3D.cpp:148-166 | adjW·H·display = render·adjH·W: on the display the region has the content aspect. |
| Viewports.Examples | Y2-Direct3D11/code/D3D.cpp:148-176 | 1280x720, 16:9 content on 4:3 gives 1280x540 at (0,90). 1920x1080, 4:3 content on 16:9 gives 1440x1080 at (240,0). |
| Render.QuadFrontFacing | Y2-Direct3D11/code/D3D.cpp:59-68 | Six vertices, all corners of clip space at z = 0. Both triangles are clockwise and survive back-face culling with clockwise front faces. The 6·12-byte buffer fits them exactly. |
| Render.QuadCoversClipSpace | Y2-Direct3D11/code/D3D.cpp:59-68 | A point lies in one of the two triangles iff it lies in the 2x2 clip-space square. |
| Render.QuadTrianglesDisjoint | Y2-Direct3D11/code/D3D.cpp:59-68 | The two triangles overlap only on their shared diagonal. |
| Render.Renderer.constructor | Y2-Direct3D11/code/D3D.cpp:132-187 | The viewports are `ComputeViewports` of the back buffer and the two aspects, and the full one is bound. The event log and the vertex-buffer, layout and shader bindings are unchanged. |
| Render.Renderer.RenderFrame | Y2-Direct3D11/code/D3D.cpp:259-289 | The frame clears under the full viewport. It then draws the 6 quad vertices under the adjusted viewport, with 12-byte stride, layout and shaders bound. The full viewport is bound again at the end. Afterwards the vertex buffer is bound with stride 12 and offset 0, and the layout and shaders are bound. |
| Render.Renderer.Flip | Y2-Direct3D11/code/D3D.cpp:292-296 | Presents with the given sync interval. The viewport and the other bindings are unchanged. |
| AppWindow.HandleMessage | Y2-Direct3D11/code/Win32.cpp:70-152 | The window procedure never changes the mode and never restores a destroyed window. It posts at most one message, behind those already queued. |
| AppWindow.Pump | Y2-Direct3D11/code/Win32.cpp:230-276 | A pass keeps the mode and never restores the window. It renders only when it continues with an empty queue and leaves the state as it was. Otherwise it removes the front message and keeps the rest in order. |
| AppWindow.StopsOnlyOnQuit | Y2-Direct3D11/code/Win32.cpp:230-276 | `UpdateAppWindow` returns false iff the dequeued message is the quit message. |
| AppWindow.RenderDecision | Y2-Direct3D11/code/Win32.cpp:233-272 | A pass that dequeues a message does not render. With an empty queue it renders iff the window exists and it is windowed or active. |
| AppWindow.WindowStaysGone | Y2-Direct3D11/code/Win32.cpp:86-89 | Nothing restores the window once closing cleared it. |
| AppWindow.NoRenderAfterClose | Y2-Direct3D11/code/Win32.cpp:86-89 | After the close, no later pass renders, whatever messages arrive. |
| AppWindow.EscapeQuits | Y2-Direct3D11/code/Win32.cpp:91-96 | Escape queues a close. The next pass handles it, dropping the window and queueing quit. The pass after that stops the loop. |
| AppWindow.ActivationFlags | Y2-Direct3D11/code/Win32.cpp:117-143 | Active and click-active set the focus flag, inactive clears it; nothing else changes. |
| AppWindow.Window.WindowProc | Y2-Direct3D11/code/Win32.cpp:70-152 | The window procedure's update is exactly `HandleMessage`. |
| AppWindow.Window.UpdateAppWindow | Y2-Direct3D11/code/Win32.cpp:230-276 | One call is exactly a `Pump` step: the new state, continue flag and render flag. |
| AppMain.SampleDescFor | Y2-Direct3D11/code/Win32.cpp:351-365 | Off (≤ 1) is count 1 at quality 0. Otherwise the count is the requested one with the standard pattern. The count is always a power of two. |
| AppMain.MultiSamplesSupported | Y2-Direct3D11/code/Win32.cpp:360-362 | The dialog's counts and the development default all meet the entry point's assertion. |
| AppMain.SyncInterval | Y2-Direct3D11/code/Win32.cpp:399-400 | The interval is at most 1, and is 1 iff full screen with vertical sync. |
| AppMain.DisplayAspect | Y2-Direct3D11/code/Win32.cpp:370-375 | Automatic (-1) becomes the mode's width/height; an override is kept. |
| AppMain.DialogAspectPositive | Y2-Direct3D11/code/Win32.cpp:370-378 | After the dialog, the aspect passed to the renderer is positive. |
| AppMain.DevelopmentLaunchHasNoBars | Y2-Direct3D11/code/Win32.cpp:340-347 | Development defaults in the 1280x720 window: aspect 16:9, no bars, sync interval 0, one sample. |
| AppMain.ExitCode | Y2-Direct3D11/code/Win32.cpp:433-440 | Exit code 1 iff an error message was recorded, otherwise 0. |
| AppMain.DialogExitCodes | Y2-Direct3D11/code/Win32.cpp:433-440 | Cancelling exits with 0; a dialog that could not be shown exits with 1. |
| AppMain.LoopKeepsMode | Y2-Direct3D11/code/Win32.cpp:386-420 | The windowed mode never changes while the loop runs. |
| AppMain.NoFramesWithoutWindow | Y2-Direct3D11/code/Win32.cpp:386-420 | Without a window the loop renders no frames. |
| AppMain.Pass | Y2-Direct3D11/code/Win32.cpp:388 | One pass of the loop advances the loop specification by one batch. |
| AppMain.PresentFrame | Y2-Direct3D11/code/Win32.cpp:390-418 | A rendering pass draws and presents one frame. In windowed mode it advances the frame counter mod 60, counting the title refreshes. |
| AppMain.FrameLoop | Y2-Direct3D11/code/Win32.cpp:380-420 | The loop matches `Loop` in final window state and frame count, and records one clear, draw and present per frame with the mode's sync interval. The FPS counter stays in [0, 60); windowed, it is frames mod 60 and the title refreshes are frames / 60. |

## Left out

- Device work is not modelled: DXGI factory, adapter and output enumeration, swap-chain and device creation, full-screen switching, and resource creation in `D3D::Create`. These are foreign calls with no logic of their own. Creation is assumed to succeed.
- The dialog plumbing is not modelled: combo-box filling, `UpdateOutputs`, `UpdateDisplayModes` beyond the aspect list, and enabling or disabling controls. The selections are an input record.
- The desktop-mode match in `UpdateDisplayModes` is not modelled.
- Window creation and destruction, `PeekMessage`/`DispatchMessage` beyond the queue model, `SetCursor`, `Sleep`, `SetWindowPos` and the structured exception handler are not modelled.
  - Messages the system delivers are an input. `PostQuitMessage` is modelled as queueing the quit message behind any others.
- Floating point is idealised: aspect ratios, viewports and `GetRatio` are over reals, so rounding is not modelled.
- Timing is not modelled: `Timer.h`, the elapsed-time accumulation and the FPS figure itself. Only the frame counter and the title refreshes are counted.
- Unicode conversion is not modelled: `ToUnicode`/`ToMultibyte` are library calls.
- Ownership wrappers (`ComPtr`, `RenderTarget`, `Noncopyable`) and the `ASSERT`/`VERIFY` macros are not modelled. Most of the assertions they check become preconditions. The default branch of the multisample switch keeps its release fallback of one sample (`SetupDialog.MultiSamplesFor`).
- `D3D::Destroy` releases without clearing its pointers. No claim is made about destroying twice.
- AspectRatios.GetDesc: the `setprecision(3)` text of the ratio is a parameter, not computed from the float.
- AspectRatios.Make: an aspect ratio is a value, so `Reduce` assigning fields in place becomes construction of the reduced value.
- AppMain.FrameLoop: the loop runs until the quit message or until the given message batches run out. The endless loop is bounded by its input.
- Render.Renderer.RenderFrame: the input layout and shaders are flags that the draw records, not objects. The vertex buffer is its stride and offset.
- SetupDialog.OkSettings: assumes the combo boxes hold valid positions (a mode, and "Automatic" plus one entry per listed ratio). A combo box without a selection is not modelled.
- AppMain.DisplayAspect: requires a display mode with nonzero height; the float division by zero is not modelled.
- Buffers.ConstantBufferGPU.constructor: the buffer's name is copied into the object. The source keeps a reference to the caller's string, which can dangle; that aliasing is not modelled.

## Findings

| source | as written | input that shows it | evidently intended | confidence | as-written member | corrected member |
|---|---|---|---|---|---|---|
| Y2-PostProcessing/code/SetupDialog.cpp:67-70 | `operator <` compares numerators only. So after the stable `sort()`, entries `==` to each other need not be adjacent, and `unique()` keeps both. | Modes 1280x768 (5:3), 1280x1024 (5:4), 1600x960 (5:3) give the list 5:3, 5:4, 5:3. | Order by ratio value, so equal ratios are adjacent and removed. | not executed | AspectRatioLists.AspectChoicesKeepsDuplicate | AspectRatioLists.AspectChoicesByValueDistinct |
