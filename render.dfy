/** The per-frame command sequence of the renderer and the full-screen quad
    it draws, over a device context that remembers its bound viewport and
    logs what it clears and draws. */
module Render {
  import opened Viewports

  datatype Vector3 = Vector3(x: real, y: real, z: real)

  /** `sizeof(Vector3)`: three 32-bit floats. */
  const Vector3Size: nat := 12

  /** Two triangles covering clip space, sharing the diagonal from the top
      left corner (0) to the bottom right corner (3). */
  const QuadVertices: seq<Vector3> := [
    Vector3(-1.0,  1.0, 0.0),
    Vector3( 1.0,  1.0, 0.0),
    Vector3( 1.0, -1.0, 0.0),
    Vector3(-1.0,  1.0, 0.0),
    Vector3( 1.0, -1.0, 0.0),
    Vector3(-1.0, -1.0, 0.0)
  ]

  /** The byte width of the quad's vertex buffer. */
  const QuadBufferBytes: nat := 6 * Vector3Size

  /** Twice the signed area of a triangle in the x-y plane; negative when
      its corners run clockwise (y pointing up). */
  function TwiceSignedArea(a: Vector3, b: Vector3, c: Vector3): real
  {
    (b.x - a.x) * (c.y - a.y) - (b.y - a.y) * (c.x - a.x)
  }

  /** The fixed rasterizer state: back faces are culled, and clockwise
      triangles are the front faces. */
  const CullBack: bool := true
  const FrontCounterClockwise: bool := false

  /** A triangle survives culling when it faces the viewer, or when nothing
      is culled. */
  predicate Rasterized(a: Vector3, b: Vector3, c: Vector3)
  {
    var area := TwiceSignedArea(a, b, c);
    var front := if FrontCounterClockwise then area > 0.0 else area < 0.0;
    !CullBack || front
  }

  /** Triangle `t` of a triangle list. */
  function Triangle(vertices: seq<Vector3>, t: nat): (Vector3, Vector3, Vector3)
    requires 3 * t + 2 < |vertices|
  {
    (vertices[3 * t], vertices[3 * t + 1], vertices[3 * t + 2])
  }

  /** The quad is two front-facing triangles, so neither is culled; every
      vertex is a corner of clip space on the near plane; and the buffer is
      exactly as large as the six vertices it holds. */
  lemma QuadFrontFacing()
    ensures |QuadVertices| == 6 && QuadBufferBytes == |QuadVertices| * Vector3Size
    ensures forall v :: v in QuadVertices ==> (v.x == 1.0 || v.x == -1.0) && (v.y == 1.0 || v.y == -1.0) && v.z == 0.0
    ensures forall t :: 0 <= t < 2 ==> var (a, b, c) := Triangle(QuadVertices, t); Rasterized(a, b, c)
  {
    forall t | 0 <= t < 2
      ensures var (a, b, c) := Triangle(QuadVertices, t); Rasterized(a, b, c)
    {
      if t == 0 {
        assert TwiceSignedArea(QuadVertices[0], QuadVertices[1], QuadVertices[2]) == -4.0;
      } else {
        assert TwiceSignedArea(QuadVertices[3], QuadVertices[4], QuadVertices[5]) == -4.0;
      }
    }
  }

  /** Point (x, y) lies on the inner side of (or on) the edge from `a` to
      `b` of a clockwise triangle. */
  predicate InsideEdge(a: Vector3, b: Vector3, x: real, y: real)
  {
    (b.x - a.x) * (y - a.y) - (b.y - a.y) * (x - a.x) <= 0.0
  }

  /** Point (x, y) lies in the clockwise triangle `a`, `b`, `c`. */
  predicate InTriangle(a: Vector3, b: Vector3, c: Vector3, x: real, y: real)
  {
    InsideEdge(a, b, x, y) && InsideEdge(b, c, x, y) && InsideEdge(c, a, x, y)
  }

  /** Point (x, y) lies in one of the quad's two triangles. */
  predicate InQuad(x: real, y: real)
  {
    InTriangle(QuadVertices[0], QuadVertices[1], QuadVertices[2], x, y)
    || InTriangle(QuadVertices[3], QuadVertices[4], QuadVertices[5], x, y)
  }

  /** The two triangles together cover exactly the 2x2 clip-space square:
      every point of the square lies in one of them, and no point outside it
      does. */
  lemma QuadCoversClipSpace(x: real, y: real)
    ensures InQuad(x, y) <==> -1.0 <= x <= 1.0 && -1.0 <= y <= 1.0
  {
    assert InTriangle(QuadVertices[0], QuadVertices[1], QuadVertices[2], x, y)
      <==> y <= 1.0 && x <= 1.0 && x + y >= 0.0;
    assert InTriangle(QuadVertices[3], QuadVertices[4], QuadVertices[5], x, y)
      <==> x + y <= 0.0 && y >= -1.0 && x >= -1.0;
  }

  /** The triangles only share the diagonal: no point off it lies in both. */
  lemma QuadTrianglesDisjoint(x: real, y: real)
    requires x + y != 0.0
    ensures !(InTriangle(QuadVertices[0], QuadVertices[1], QuadVertices[2], x, y)
              && InTriangle(QuadVertices[3], QuadVertices[4], QuadVertices[5], x, y))
  {
    assert InTriangle(QuadVertices[0], QuadVertices[1], QuadVertices[2], x, y) ==> x + y >= 0.0;
    assert InTriangle(QuadVertices[3], QuadVertices[4], QuadVertices[5], x, y) ==> x + y <= 0.0;
  }

  /** The colour the back buffer is cleared to (red, green, blue, alpha). */
  datatype Color = Color(r: real, g: real, b: real, a: real)
  const ClearColor: Color := Color(0.0, 0.0, 0.4, 0.0)

  /** What the context did, with the viewport and bindings in effect, and
      the swap chain's presents in the same order. */
  datatype Event =
    | Cleared(viewport: Viewport, color: Color)
    | Drew(viewport: Viewport, vertexCount: nat, startVertex: nat, stride: nat, offset: nat, pipelineBound: bool)
    | Presented(syncInterval: nat)

  /** The immediate device context, reduced to the state a frame touches. */
  class DeviceContext {
    var viewport: Viewport
    var stride: nat
    var offset: nat
    var inputLayoutSet: bool
    var shadersSet: bool
    var events: seq<Event>

    constructor (initial: Viewport)
      ensures viewport == initial && events == []
      ensures stride == 0 && offset == 0 && !inputLayoutSet && !shadersSet
    {
      viewport := initial;
      stride, offset := 0, 0;
      inputLayoutSet, shadersSet := false, false;
      events := [];
    }

    method SetViewport(v: Viewport)
      modifies this
      ensures viewport == v
      ensures events == old(events) && stride == old(stride) && offset == old(offset)
      ensures inputLayoutSet == old(inputLayoutSet) && shadersSet == old(shadersSet)
    {
      viewport := v;
    }

    /** Clearing a render target is recorded with the viewport then bound. */
    method ClearRenderTargetView(color: Color)
      modifies this
      ensures events == old(events) + [Cleared(viewport, color)]
      ensures viewport == old(viewport) && stride == old(stride) && offset == old(offset)
      ensures inputLayoutSet == old(inputLayoutSet) && shadersSet == old(shadersSet)
    {
      events := events + [Cleared(viewport, color)];
    }

    method SetVertexBuffer(stride: nat, offset: nat)
      modifies this
      ensures this.stride == stride && this.offset == offset
      ensures events == old(events) && viewport == old(viewport)
      ensures inputLayoutSet == old(inputLayoutSet) && shadersSet == old(shadersSet)
    {
      this.stride, this.offset := stride, offset;
    }

    method SetInputLayout()
      modifies this
      ensures inputLayoutSet
      ensures events == old(events) && viewport == old(viewport)
      ensures stride == old(stride) && offset == old(offset) && shadersSet == old(shadersSet)
    {
      inputLayoutSet := true;
    }

    method SetShaders()
      modifies this
      ensures shadersSet
      ensures events == old(events) && viewport == old(viewport)
      ensures stride == old(stride) && offset == old(offset) && inputLayoutSet == old(inputLayoutSet)
    {
      shadersSet := true;
    }

    /** A draw is recorded with the viewport and vertex-buffer binding then in
        effect, and whether an input layout and shaders were bound. */
    method Draw(vertexCount: nat, startVertex: nat)
      modifies this
      ensures events == old(events) + [Drew(viewport, vertexCount, startVertex, stride, offset, inputLayoutSet && shadersSet)]
      ensures viewport == old(viewport) && stride == old(stride) && offset == old(offset)
      ensures inputLayoutSet == old(inputLayoutSet) && shadersSet == old(shadersSet)
    {
      events := events + [Drew(viewport, vertexCount, startVertex, stride, offset, inputLayoutSet && shadersSet)];
    }

    /** The swap chain presents the back buffer, waiting `syncInterval`
        vertical blanks (0: immediately). */
    method Present(syncInterval: nat)
      modifies this
      ensures events == old(events) + [Presented(syncInterval)]
      ensures viewport == old(viewport) && stride == old(stride) && offset == old(offset)
      ensures inputLayoutSet == old(inputLayoutSet) && shadersSet == old(shadersSet)
    {
      events := events + [Presented(syncInterval)];
    }
  }

  /** The renderer's global state: its context and the three viewports. */
  class Renderer {
    const context: DeviceContext
    const viewports: ViewportSet

    /** Computes the viewports for the back buffer and binds the full one. */
    constructor (context: DeviceContext, viewWidth: real, viewHeight: real, renderAspect: real, displayAspect: real)
      requires renderAspect > 0.0 && displayAspect > 0.0
      modifies context
      ensures this.context == context
      ensures viewports == ComputeViewports(viewWidth, viewHeight, renderAspect, displayAspect)
      ensures context.viewport == viewports.back && context.events == old(context.events)
      ensures context.stride == old(context.stride) && context.offset == old(context.offset)
      ensures context.inputLayoutSet == old(context.inputLayoutSet) && context.shadersSet == old(context.shadersSet)
    {
      this.context := context;
      var v := ComputeViewports(viewWidth, viewHeight, renderAspect, displayAspect);
      viewports := v;
      new;
      context.SetViewport(v.back);
    }

    /** One frame: clear the whole back buffer, draw the quad inside the
        adjusted viewport with the quad's vertex layout, and leave the full
        viewport bound. */
    method RenderFrame()
      modifies context
      ensures context.viewport == viewports.back
      ensures context.events == old(context.events) + [
        Cleared(viewports.back, ClearColor),
        Drew(viewports.backAdjusted, |QuadVertices|, 0, Vector3Size, 0, true)]
      ensures context.stride == Vector3Size && context.offset == 0
      ensures context.inputLayoutSet && context.shadersSet
    {
      context.SetViewport(viewports.back);
      context.ClearRenderTargetView(ClearColor);
      context.SetViewport(viewports.backAdjusted);
      context.SetVertexBuffer(Vector3Size, 0);
      context.SetInputLayout();
      context.SetShaders();
      context.Draw(6, 0);
      context.SetViewport(viewports.back);
    }

    /** Presents the frame. */
    method Flip(syncInterval: nat)
      modifies context
      ensures context.viewport == old(context.viewport)
      ensures context.events == old(context.events) + [Presented(syncInterval)]
      ensures context.stride == old(context.stride) && context.offset == old(context.offset)
      ensures context.inputLayoutSet == old(context.inputLayoutSet) && context.shadersSet == old(context.shadersSet)
    {
      context.Present(syncInterval);
    }
  }
}
