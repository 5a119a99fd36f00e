/** The render window's message handling: the window procedure updates two
    flags (whether the window still exists and whether it has focus), and
    each pass of the frame loop either handles one queued message or, with
    an empty queue, decides whether to render. */
module AppWindow {

  datatype Key = Escape | Space | OtherKey
  datatype Activation = Active | ClickActive | Inactive

  /** The window messages the core distinguishes. */
  datatype Msg =
    | Quit
    | Close
    | KeyDown(key: Key)
    | Activate(state: Activation)
    | OtherMessage

  /** The flags the window procedure maintains, whether the application runs
      windowed, and the thread's message queue. */
  datatype WindowState = WindowState(
    hasWindow: bool,
    windowed: bool,
    active: bool,
    queue: seq<Msg>)

  /** The outcome of one pass: keep running, and render this pass. */
  datatype PumpResult = PumpResult(state: WindowState, keepRunning: bool, renderFrame: bool)

  /** The window procedure's effect on the state. Closing posts the quit
      message and forgets the window; Escape posts a close request; the
      activation message sets or clears the focus flag. */
  function HandleMessage(s: WindowState, m: Msg): (r: WindowState)
    ensures r.windowed == s.windowed
    ensures r.hasWindow ==> s.hasWindow
    ensures |s.queue| <= |r.queue| <= |s.queue| + 1 && r.queue[..|s.queue|] == s.queue
  {
    match m
    case Close => s.(hasWindow := false, queue := s.queue + [Quit])
    case KeyDown(Escape) => s.(queue := s.queue + [Close])
    case Activate(Active) => s.(active := true)
    case Activate(ClickActive) => s.(active := true)
    case Activate(Inactive) => s.(active := false)
    case _ => s
  }

  /** One call of the frame loop's window update. */
  function Pump(s: WindowState): (r: PumpResult)
    ensures r.state.windowed == s.windowed
    ensures r.state.hasWindow ==> s.hasWindow
    ensures r.renderFrame ==> r.keepRunning && |s.queue| == 0 && r.state == s
    ensures |s.queue| > 0 ==> |s.queue| - 1 <= |r.state.queue| && r.state.queue[..|s.queue| - 1] == s.queue[1..]
  {
    if |s.queue| > 0 then
      var m := s.queue[0];
      var rest := s.(queue := s.queue[1..]);
      if m == Quit then PumpResult(rest, false, false)
      else PumpResult(HandleMessage(rest, m), true, false)
    else
      PumpResult(s, true, s.hasWindow && (s.windowed || s.active))
  }

  /** The loop is told to stop exactly when the dequeued message is the quit
      message. */
  lemma StopsOnlyOnQuit(s: WindowState)
    ensures !Pump(s).keepRunning <==> |s.queue| > 0 && s.queue[0] == Quit
  {
  }

  /** A pass that dequeues a message never renders; a pass with an empty
      queue renders exactly when the window exists and it is windowed or has
      focus. */
  lemma RenderDecision(s: WindowState)
    ensures |s.queue| > 0 ==> !Pump(s).renderFrame
    ensures |s.queue| == 0 ==> (Pump(s).renderFrame <==> s.hasWindow && (s.windowed || s.active))
  {
  }

  /** The window procedure never brings a window back, and neither does the
      loop: once it is gone it stays gone. */
  lemma WindowStaysGone(s: WindowState, m: Msg)
    requires !s.hasWindow
    ensures !HandleMessage(s, m).hasWindow
    ensures !Pump(s).state.hasWindow && !Pump(s).renderFrame
  {
  }

  /** Activation messages set the focus flag; deactivation clears it; the
      window-existence flag and the windowed mode are untouched. */
  lemma ActivationFlags(s: WindowState, a: Activation)
    ensures var t := HandleMessage(s, Activate(a));
      (t.active <==> a != Inactive) && t.hasWindow == s.hasWindow && t.windowed == s.windowed && t.queue == s.queue
  {
  }

  /** What can happen between two checks of the queue: the system delivers
      messages, or the loop runs one pass. */
  datatype Tick = Deliver(m: Msg) | RunPass

  /** Whether any pass of the loop, run over `ticks` from `s`, renders
      before the loop stops. */
  function RendersDuring(s: WindowState, ticks: seq<Tick>): bool
    decreases |ticks|
  {
    if |ticks| == 0 then false
    else match ticks[0]
      case Deliver(m) => RendersDuring(s.(queue := s.queue + [m]), ticks[1..])
      case RunPass =>
        var r := Pump(s);
        r.renderFrame || (r.keepRunning && RendersDuring(r.state, ticks[1..]))
  }

  /** After the window is closed no later pass renders, whatever the system
      delivers. */
  lemma {:induction false} NoRenderAfterClose(s: WindowState, ticks: seq<Tick>)
    requires !s.hasWindow
    ensures !RendersDuring(s, ticks)
    decreases |ticks|
  {
    if |ticks| > 0 {
      match ticks[0]
      case Deliver(m) =>
        NoRenderAfterClose(s.(queue := s.queue + [m]), ticks[1..]);
      case RunPass =>
        WindowStaysGone(s, OtherMessage);
        var r := Pump(s);
        if |s.queue| > 0 && s.queue[0] != Quit {
          WindowStaysGone(s.(queue := s.queue[1..]), s.queue[0]);
        }
        NoRenderAfterClose(r.state, ticks[1..]);
    }
  }

  /** Escape closes the application: handling it queues a close request,
      the next pass handles that (dropping the window and queueing the quit
      message) and the pass after that stops the loop. */
  lemma EscapeQuits(s: WindowState)
    requires s.queue == [KeyDown(Escape)]
    ensures var p1 := Pump(s);
      var p2 := Pump(p1.state);
      var p3 := Pump(p2.state);
      && p1.keepRunning && !p1.renderFrame && p1.state.queue == [Close]
      && p2.keepRunning && !p2.renderFrame && !p2.state.hasWindow && p2.state.queue == [Quit]
      && !p3.keepRunning
  {
    var p1 := Pump(s);
    assert s.queue[1..] == [];
    assert p1.state.queue == [Close];
    var p2 := Pump(p1.state);
    assert p1.state.queue[1..] == [];
    assert p2.state.queue == [Quit];
  }

  /** The render window as the program holds it: the window handle (present
      or not), the mode, the focus flag and the message queue. */
  class Window {
    var hasWindow: bool
    var windowed: bool
    var active: bool
    var queue: seq<Msg>

    function State(): WindowState
      reads this
    {
      WindowState(hasWindow, windowed, active, queue)
    }

    constructor (windowed: bool)
      ensures State() == WindowState(true, windowed, false, [])
    {
      hasWindow := true;
      this.windowed := windowed;
      active := false;
      queue := [];
    }

    /** The system posts several messages in order. */
    method PostAll(ms: seq<Msg>)
      modifies this
      ensures State() == old(State()).(queue := old(queue) + ms)
    {
      queue := queue + ms;
    }

    /** `WindowProc`: the flag updates for the messages it handles. */
    method WindowProc(m: Msg)
      modifies this
      ensures State() == HandleMessage(old(State()), m)
    {
      match m {
        case Close =>
          queue := queue + [Quit];
          hasWindow := false;
        case KeyDown(key) =>
          if key == Escape {
            queue := queue + [Close];
          }
        case Activate(a) =>
          if a == Active || a == ClickActive {
            active := true;
          } else {
            active := false;
          }
        case _ =>
      }
    }

    /** `UpdateAppWindow`: handles one queued message, or with an empty
        queue decides whether to render; returns false on the quit message. */
    method UpdateAppWindow() returns (keepRunning: bool, renderFrame: bool)
      modifies this
      ensures Pump(old(State())) == PumpResult(State(), keepRunning, renderFrame)
    {
      renderFrame := false;
      if |queue| > 0 {
        var m := queue[0];
        queue := queue[1..];
        if m == Quit {
          return false, renderFrame;
        }
        WindowProc(m);
      } else {
        if hasWindow {
          if windowed || active {
            renderFrame := true;
          }
        }
      }
      return true, renderFrame;
    }
  }
}
