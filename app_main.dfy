/** The decisions of the application's entry point: the multisample
    description, the display aspect ratio, the sync interval, the frame loop
    with its windowed frame counter, and the exit code. */
module AppMain {
  import opened Settings
  import opened AspectRatioLists
  import opened SetupDialog
  import opened Viewports
  import opened Render
  import opened AppWindow
  import Platform

  /** `D3D11_STANDARD_MULTISAMPLE_PATTERN`. */
  const StandardMultisamplePattern: Uint := 0xffff_ffff

  /** A `DXGI_SAMPLE_DESC`. */
  datatype SampleDesc = SampleDesc(count: Uint, quality: Uint)

  /** The counts the entry point accepts: 0 or 1 for off, otherwise the 2,
      4 or 8 samples every Direct3D 11 device supports. */
  predicate SupportedMultiSamples(multiSamples: Uint)
  {
    multiSamples <= 1 || multiSamples == 2 || multiSamples == 4 || multiSamples == 8
  }

  /** Multisampling off is one sample at quality 0; otherwise the requested
      count with the standard sample pattern. */
  function SampleDescFor(multiSamples: Uint): (d: SampleDesc)
    requires SupportedMultiSamples(multiSamples)
    ensures d.count >= 1 && Platform.IsPowerOfTwo(d.count as bv32)
    ensures multiSamples <= 1 ==> d == SampleDesc(1, 0)
    ensures multiSamples > 1 ==> d == SampleDesc(multiSamples, StandardMultisamplePattern)
    ensures d.count == 1 <==> d.quality == 0
  {
    if multiSamples <= 1 then SampleDesc(1, 0)
    else SampleDesc(multiSamples, StandardMultisamplePattern)
  }

  /** Both sources of the count, the setup dialog and the development
      default, give a count the entry point accepts. */
  lemma MultiSamplesSupported(index: Uint)
    ensures SupportedMultiSamples(MultiSamplesFor(index))
    ensures SupportedMultiSamples(MultiSampleDev)
  {
  }

  /** The sync interval passed to `Flip`: the desktop compositor ignores
      vertical sync, so a window presents immediately; full screen waits
      for one vertical blank exactly when vertical sync is on. */
  function SyncInterval(windowed: bool, vSync: bool): (interval: nat)
    ensures interval <= 1
    ensures interval == 1 <==> !windowed && vSync
  {
    if windowed then 0 else if vSync then 1 else 0
  }

  /** The aspect ratio handed to the renderer: "automatic" becomes the width
      over height of the display mode in use (square pixels); an override
      is kept. */
  function DisplayAspect(aspectRatio: real, mode: DisplayMode): (a: real)
    requires mode.height != 0
    ensures aspectRatio == AutomaticAspect ==> a * mode.height as real == mode.width as real
    ensures aspectRatio != AutomaticAspect ==> a == aspectRatio
  {
    if aspectRatio == AutomaticAspect then mode.width as real / mode.height as real else aspectRatio
  }

  /** With the dialog's aspect choice (taken from the list built from the
      enumerated modes) and a display mode with area, the renderer always
      receives a positive aspect ratio. */
  lemma DialogAspectPositive(previous: DialogSettings, sel: Selection, modes: seq<DisplayMode>, mode: DisplayMode)
    requires ModesHaveArea(modes)
    requires SelectionInRange(sel, modes, AspectChoices(modes))
    requires mode.width != 0 && mode.height != 0
    ensures RatiosUsable(AspectChoices(modes))
    ensures DisplayAspect(OkSettings(previous, sel, modes, AspectChoices(modes)).aspectRatio, mode) > 0.0
  {
    ChoicesFromModes(modes, NumeratorKey);
    if !sel.windowedChecked && sel.aspectIndex > 0 {
      OkAspectIsModeRatio(previous, sel, modes);
    } else {
      PositiveQuotient(mode.width, mode.height);
    }
  }

  /** The settings the entry point works with after startup. */
  datatype LaunchSettings = LaunchSettings(windowed: bool, vSync: bool, aspectRatio: real, multiSamples: Uint)

  /** Without the setup dialog: the development toggles, automatic aspect. */
  const DevelopmentLaunch: LaunchSettings := LaunchSettings(WindowedDev, VSyncDev, AutomaticAspect, MultiSampleDev)

  /** The development launch runs in the fixed 1280x720 window, whose own
      aspect is the 16:9 content aspect: no bars, and the full frame is the
      scene. It presents without waiting and draws one sample per pixel. */
  lemma DevelopmentLaunchHasNoBars()
    ensures var windowMode := DisplayMode(WindowedResX, WindowedResY, 0, 0, BackBufferFormat);
      var aspect := DisplayAspect(DevelopmentLaunch.aspectRatio, windowMode);
      && aspect == RenderAspectRatio
      && ComputeViewports(WindowedResX as real, WindowedResY as real, RenderAspectRatio, aspect).backAdjusted
         == Viewport(0.0, 0.0, 1280.0, 720.0, 0.0, 1.0)
      && SyncInterval(DevelopmentLaunch.windowed, DevelopmentLaunch.vSync) == 0
      && SampleDescFor(DevelopmentLaunch.multiSamples) == SampleDesc(1, 0)
  {
    var windowMode := DisplayMode(WindowedResX, WindowedResY, 0, 0, BackBufferFormat);
    assert DisplayAspect(AutomaticAspect, windowMode) == 1280.0 / 720.0;
    NoBars(1280.0, 720.0, RenderAspectRatio);
  }

  /** The process exit code: 1 exactly when an error message was recorded. */
  function ExitCode(lastError: string): (code: int)
    ensures code == 0 || code == 1
    ensures code == 1 <==> lastError != ""
  {
    if lastError != "" then 1 else 0
  }

  /** Cancelling the dialog ends the program cleanly; a dialog that could
      not be shown ends it with an error. */
  lemma DialogExitCodes()
    ensures ExitCode(DialogOutcome(EndedCancel).1) == 0
    ensures ExitCode(DialogOutcome(NotShown).1) == 1
  {
  }

  /** One rendered frame as the context records it. */
  function FrameEvents(v: ViewportSet, syncInterval: nat): seq<Event>
  {
    [Cleared(v.back, ClearColor),
     Drew(v.backAdjusted, |QuadVertices|, 0, Vector3Size, 0, true),
     Presented(syncInterval)]
  }

  /** `frames` rendered frames in a row. */
  function RepeatedFrames(v: ViewportSet, syncInterval: nat, frames: nat): (r: seq<Event>)
    ensures |r| == 3 * frames
  {
    if frames == 0 then [] else RepeatedFrames(v, syncInterval, frames - 1) + FrameEvents(v, syncInterval)
  }

  /** Where the frame loop ends: the final window state and the number of
      passes that rendered. */
  datatype LoopResult = LoopResult(final: WindowState, frames: nat)

  /** The frame loop over window states: before each pass the system delivers
      the next batch of messages; the loop ends on the quit message or when
      the batches run out. */
  function Loop(s: WindowState, incoming: seq<seq<Msg>>): LoopResult
    decreases |incoming|, 0
  {
    if |incoming| == 0 then LoopResult(s, 0)
    else After(Pump(s.(queue := s.queue + incoming[0])), incoming[1..])
  }

  /** The rest of the loop after a pass with outcome `r`. */
  function After(r: PumpResult, rest: seq<seq<Msg>>): LoopResult
    decreases |rest|, 1
  {
    if !r.keepRunning then LoopResult(r.state, 0)
    else
      var tail := Loop(r.state, rest);
      tail.(frames := tail.frames + (if r.renderFrame then 1 else 0))
  }

  /** The mode never changes while the loop runs. */
  lemma {:induction false} LoopKeepsMode(s: WindowState, incoming: seq<seq<Msg>>)
    ensures Loop(s, incoming).final.windowed == s.windowed
    decreases |incoming|
  {
    if |incoming| > 0 {
      var t := s.(queue := s.queue + incoming[0]);
      var r := Pump(t);
      if r.keepRunning {
        LoopKeepsMode(r.state, incoming[1..]);
      }
    }
  }

  /** Once the window is gone the loop renders nothing more. */
  lemma {:induction false} NoFramesWithoutWindow(s: WindowState, incoming: seq<seq<Msg>>)
    requires !s.hasWindow
    ensures Loop(s, incoming).frames == 0
    decreases |incoming|
  {
    if |incoming| > 0 {
      var t := s.(queue := s.queue + incoming[0]);
      WindowStaysGone(t, OtherMessage);
      var r := Pump(t);
      if |t.queue| > 0 && t.queue[0] != Quit {
        WindowStaysGone(t.(queue := t.queue[1..]), t.queue[0]);
      }
      if r.keepRunning {
        NoFramesWithoutWindow(r.state, incoming[1..]);
      }
    }
  }

  /** One pass of `Loop`. */
  lemma LoopUnfold(s: WindowState, incoming: seq<seq<Msg>>, i: nat)
    requires i < |incoming|
    ensures Loop(s, incoming[i..]) == After(Pump(s.(queue := s.queue + incoming[i])), incoming[i + 1..])
  {
    assert incoming[i..][0] == incoming[i];
    assert incoming[i..][1..] == incoming[i + 1..];
  }

  /** The windowed frame counter wraps at 60 and counts the wraps. */
  lemma CounterStep(frames: nat, numFramesFPS: nat, titleUpdates: nat)
    requires numFramesFPS == frames % 60 && titleUpdates == frames / 60
    ensures numFramesFPS + 1 == 60 ==> 0 == (frames + 1) % 60 && titleUpdates + 1 == (frames + 1) / 60
    ensures numFramesFPS + 1 != 60 ==> numFramesFPS + 1 == (frames + 1) % 60 && titleUpdates == (frames + 1) / 60
  {
  }

  /** The window side of a pass: the system delivers batch `i`, then the
      window is updated. */
  method Pass(window: Window, incoming: seq<seq<Msg>>, i: nat) returns (keepRunning: bool, renderFrame: bool)
    requires i < |incoming|
    modifies window
    ensures window.windowed == old(window.windowed)
    ensures Loop(old(window.State()), incoming[i..])
            == After(PumpResult(window.State(), keepRunning, renderFrame), incoming[i + 1..])
  {
    LoopUnfold(window.State(), incoming, i);
    window.PostAll(incoming[i]);
    keepRunning, renderFrame := window.UpdateAppWindow();
  }

  /** The body of a rendering pass: draw, present, and in windowed mode
      advance the FPS frame counter, which restarts after 60 frames. */
  method PresentFrame(renderer: Renderer, sync: nat, windowed: bool, frames: nat, numFramesFPS: nat, titleUpdates: nat)
    returns (numFramesFPS': nat, titleUpdates': nat)
    requires windowed ==> numFramesFPS == frames % 60 && titleUpdates == frames / 60
    requires !windowed ==> numFramesFPS == 0 && titleUpdates == 0
    modifies renderer.context
    ensures renderer.context.events == old(renderer.context.events) + FrameEvents(renderer.viewports, sync)
    ensures numFramesFPS' < 60
    ensures windowed ==> numFramesFPS' == (frames + 1) % 60 && titleUpdates' == (frames + 1) / 60
    ensures !windowed ==> numFramesFPS' == 0 && titleUpdates' == 0
  {
    renderer.RenderFrame();
    renderer.Flip(sync);
    numFramesFPS', titleUpdates' := numFramesFPS, titleUpdates;
    if windowed {
      CounterStep(frames, numFramesFPS, titleUpdates);
      numFramesFPS' := numFramesFPS' + 1;
      if numFramesFPS' == 60 {
        titleUpdates' := titleUpdates' + 1;
        numFramesFPS' := 0;
      }
    }
  }

  /** The render loop of the entry point. Each pass delivers the next batch
      of messages and updates the window; a pass that may render draws a
      frame and presents it with the mode's sync interval. In windowed mode
      the frames are counted, and every 60th frame refreshes the title's
      FPS figure and restarts the count. */
  method FrameLoop(window: Window, renderer: Renderer, vSync: bool, incoming: seq<seq<Msg>>)
    returns (frames: nat, numFramesFPS: nat, titleUpdates: nat)
    modifies window, renderer.context
    ensures Loop(old(window.State()), incoming) == LoopResult(window.State(), frames)
    ensures renderer.context.events
            == old(renderer.context.events) + RepeatedFrames(renderer.viewports, SyncInterval(window.windowed, vSync), frames)
    ensures numFramesFPS < 60
    ensures window.windowed ==> numFramesFPS == frames % 60 && titleUpdates == frames / 60
    ensures !window.windowed ==> numFramesFPS == 0 && titleUpdates == 0
  {
    ghost var start := window.State();
    ghost var log := renderer.context.events;
    var sync := SyncInterval(window.windowed, vSync);
    frames, numFramesFPS, titleUpdates := 0, 0, 0;
    var i := 0;
    var running := true;
    ghost var result := Loop(start, incoming);
    assert incoming[0..] == incoming;
    while running && i < |incoming|
      invariant 0 <= i <= |incoming|
      invariant window.windowed == start.windowed
      invariant running ==> result == Loop(window.State(), incoming[i..]).(frames := Loop(window.State(), incoming[i..]).frames + frames)
      invariant !running ==> result == LoopResult(window.State(), frames)
      invariant renderer.context.events == log + RepeatedFrames(renderer.viewports, sync, frames)
      invariant numFramesFPS < 60
      invariant window.windowed ==> numFramesFPS == frames % 60 && titleUpdates == frames / 60
      invariant !window.windowed ==> numFramesFPS == 0 && titleUpdates == 0
      decreases |incoming| - i, running
    {
      var keepRunning, renderFrame := Pass(window, incoming, i);
      if !keepRunning {
        running := false;
      } else {
        if renderFrame {
          numFramesFPS, titleUpdates := PresentFrame(renderer, sync, window.windowed, frames, numFramesFPS, titleUpdates);
          frames := frames + 1;
        }
        i := i + 1;
      }
    }
    if running {
      assert incoming[i..] == [];
    }
  }
}
