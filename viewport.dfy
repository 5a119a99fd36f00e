/** The three viewports the renderer derives from the back-buffer size, the
    aspect ratio the content is authored for and the aspect ratio of the
    display: the full back buffer, the centred letterboxed or pillarboxed
    region the scene is shown in, and the same region at the origin for
    off-screen targets. Floats are idealised as reals. */
module Viewports {

  datatype Viewport = Viewport(
    topLeftX: real,
    topLeftY: real,
    width: real,
    height: real,
    minDepth: real,
    maxDepth: real)

  datatype ViewportSet = ViewportSet(back: Viewport, backAdjusted: Viewport, scene: Viewport)

  /** The scene size that keeps the content aspect on the display: bars on
      top and bottom for a narrower display, left and right for a wider
      one, none when they agree. */
  function AdjustedSize(viewWidth: real, viewHeight: real, renderAspect: real, displayAspect: real): (real, real)
    requires renderAspect > 0.0 && displayAspect > 0.0
  {
    if displayAspect < renderAspect then
      (viewWidth, viewHeight * (displayAspect / renderAspect))
    else if displayAspect > renderAspect then
      (viewWidth * (renderAspect / displayAspect), viewHeight)
    else
      (viewWidth, viewHeight)
  }

  /** The viewports for a back buffer of `viewWidth` by `viewHeight` pixels. */
  function ComputeViewports(viewWidth: real, viewHeight: real, renderAspect: real, displayAspect: real): (v: ViewportSet)
    requires renderAspect > 0.0 && displayAspect > 0.0
    ensures v.back == Viewport(0.0, 0.0, viewWidth, viewHeight, 0.0, 1.0)
    ensures v.backAdjusted.minDepth == 0.0 && v.backAdjusted.maxDepth == 1.0
    ensures v.scene == v.backAdjusted.(topLeftX := 0.0, topLeftY := 0.0)
  {
    var back := Viewport(0.0, 0.0, viewWidth, viewHeight, 0.0, 1.0);
    var (xResAdj, yResAdj) := AdjustedSize(back.width, back.height, renderAspect, displayAspect);
    var backAdjusted := Viewport((back.width - xResAdj) / 2.0, (back.height - yResAdj) / 2.0, xResAdj, yResAdj, 0.0, 1.0);
    var scene := Viewport(0.0, 0.0, xResAdj, yResAdj, 0.0, 1.0);
    ViewportSet(back, backAdjusted, scene)
  }

  /** A narrower display gets bars on top and bottom: full width, a strictly
      smaller height scaled by display over render aspect. */
  lemma Letterbox(w: real, h: real, renderAspect: real, displayAspect: real)
    requires h > 0.0 && 0.0 < displayAspect < renderAspect
    ensures var a := ComputeViewports(w, h, renderAspect, displayAspect).backAdjusted;
      a.width == w && a.height == h * (displayAspect / renderAspect) && 0.0 < a.height < h
  {
    ScaleBelow(h, displayAspect, renderAspect);
  }

  /** A wider display gets bars left and right: full height, a strictly
      smaller width scaled by render over display aspect. */
  lemma Pillarbox(w: real, h: real, renderAspect: real, displayAspect: real)
    requires w > 0.0 && 0.0 < renderAspect < displayAspect
    ensures var a := ComputeViewports(w, h, renderAspect, displayAspect).backAdjusted;
      a.height == h && a.width == w * (renderAspect / displayAspect) && 0.0 < a.width < w
  {
    ScaleBelow(w, renderAspect, displayAspect);
  }

  /** `x * (p / q)` lies strictly between 0 and `x` when `0 < p < q`. */
  lemma ScaleBelow(x: real, p: real, q: real)
    requires x > 0.0 && 0.0 < p < q
    ensures 0.0 < x * (p / q) < x
  {
    var s := p / q;
    QuotientBelowOne(p, q);
    assert x * s < x * 1.0;
  }

  lemma QuotientBelowOne(p: real, q: real)
    requires 0.0 < p < q
    ensures 0.0 < p / q < 1.0
  {
    var s := p / q;
    assert s * q == p;
    if s >= 1.0 {
      assert false;
    }
  }

  /** Matching aspects leave the scene the size of the back buffer. */
  lemma NoBars(w: real, h: real, aspect: real)
    requires aspect > 0.0
    ensures var a := ComputeViewports(w, h, aspect, aspect).backAdjusted;
      a == Viewport(0.0, 0.0, w, h, 0.0, 1.0)
  {
  }

  /** The adjusted viewport is centred and inside the back buffer: on each
      axis the two bars are equal, `2 * origin + size == full`, and neither
      bar is negative. */
  lemma Centred(w: real, h: real, renderAspect: real, displayAspect: real)
    requires w >= 0.0 && h >= 0.0 && renderAspect > 0.0 && displayAspect > 0.0
    ensures var a := ComputeViewports(w, h, renderAspect, displayAspect).backAdjusted;
      && 2.0 * a.topLeftX + a.width == w && 2.0 * a.topLeftY + a.height == h
      && 0.0 <= a.topLeftX && 0.0 <= a.topLeftY
      && 0.0 <= a.width <= w && 0.0 <= a.height <= h
  {
    if displayAspect < renderAspect {
      ScaleAtMost(h, displayAspect, renderAspect);
    } else if displayAspect > renderAspect {
      ScaleAtMost(w, renderAspect, displayAspect);
    }
  }

  /** `x * (p / q)` lies between 0 and `x` when `0 < p < q` and `x >= 0`. */
  lemma ScaleAtMost(x: real, p: real, q: real)
    requires x >= 0.0 && 0.0 < p < q
    ensures 0.0 <= x * (p / q) <= x
  {
    var s := p / q;
    QuotientBelowOne(p, q);
    assert x * s <= x * 1.0;
  }

  /** Only one axis is ever padded: the adjusted viewport keeps the full
      width or the full height, so a display can never get bars on all four
      sides. */
  lemma OneAxisPadded(w: real, h: real, renderAspect: real, displayAspect: real)
    requires renderAspect > 0.0 && displayAspect > 0.0
    ensures var a := ComputeViewports(w, h, renderAspect, displayAspect).backAdjusted;
      a.width == w || a.height == h
  {
  }

  /** Shown on a display of aspect `displayAspect`, the adjusted region has
      the content aspect: its width over height, scaled by the display's
      physical-to-pixel aspect, is `renderAspect`. */
  lemma ContentAspectKept(w: real, h: real, renderAspect: real, displayAspect: real)
    requires renderAspect > 0.0 && displayAspect > 0.0
    ensures var a := ComputeViewports(w, h, renderAspect, displayAspect).backAdjusted;
      a.width * h * displayAspect == renderAspect * a.height * w
  {
    var a := ComputeViewports(w, h, renderAspect, displayAspect).backAdjusted;
    if displayAspect < renderAspect {
      var s := displayAspect / renderAspect;
      assert s * renderAspect == displayAspect;
      assert a.height == h * s;
      calc {
        renderAspect * a.height * w;
        renderAspect * (h * s) * w;
        (s * renderAspect) * h * w;
        a.width * h * displayAspect;
      }
    } else if displayAspect > renderAspect {
      var s := renderAspect / displayAspect;
      assert s * displayAspect == renderAspect;
      assert a.width == w * s;
      calc {
        a.width * h * displayAspect;
        (w * s) * h * displayAspect;
        (s * displayAspect) * h * w;
        renderAspect * a.height * w;
      }
    }
  }

  /** A 16:9 scene in a 1280x720 back buffer on a 4:3 display is letterboxed
      to 1280x540 with 90-pixel bars; a 4:3 scene in a 1920x1080 back buffer
      on a 16:9 display is pillarboxed to 1440x1080 with 240-pixel bars. */
  lemma Examples()
    ensures ComputeViewports(1280.0, 720.0, 16.0 / 9.0, 4.0 / 3.0).backAdjusted
            == Viewport(0.0, 90.0, 1280.0, 540.0, 0.0, 1.0)
    ensures ComputeViewports(1920.0, 1080.0, 4.0 / 3.0, 16.0 / 9.0).backAdjusted
            == Viewport(240.0, 0.0, 1440.0, 1080.0, 0.0, 1.0)
  {
  }
}
