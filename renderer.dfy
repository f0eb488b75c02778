/** The Renderer (Renderer.h, Renderer.cpp): lines and points are collected
    for a frame, filtered against the viewport, and drawn; the beam position
    is tracked across frames so that a blanking transit is drawn only when
    the next line does not start where the beam already is.

    The writes of a frame are given by `FrameEvents`, built from the writes
    of each step (`SegmentEvents` for a drawLine, `PointEvents` for a
    drawPoint, `Level` for a brightness write). `Renderer.Render` is proved
    to produce exactly those writes. The brightness ramp is taken with exact
    arithmetic: `RampCount` steps. */
module Rendering {
  import opened Wrappers
  import opened Geometry
  import opened Arrays
  import opened Writers
  import opened Clipper
  import opened Rasterizing
  import opened Frames
  import opened Brightness
  import Objects
  import ObjectPipelines

  const DefaultMaxLines: nat := 1000
  const DefaultMaxPoints: nat := 1000
  /** The increment passed to the blanking drawLine; the rasterizer ignores it. */
  const BlankingDrawIncrement: nat := 16

  /** What a frame's writes depend on besides its input: the rasterizer's
      half scale and shift, and the brightness transform when a brightness
      writer is attached. */
  datatype Output = Output(half: nat, bits: nat, transform: Option<BrightnessTransform>)

  predicate Drawable(p: Vector2, half: nat)
  {
    Transformable(p.x, half) && Transformable(p.y, half)
  }

  /** Both endpoints can be drawn and the brightness can be transformed. */
  predicate LineRenderable(o: Output, l: Line)
  {
    Drawable(l.a, o.half) && Drawable(l.b, o.half)
    && (o.transform.Some? ==> InDomain(o.transform.value, l.brightness))
  }

  predicate PointRenderable(o: Output, p: Point)
  {
    Drawable(Vector2(p.x, p.y), o.half)
    && (o.transform.Some? ==> InDomain(o.transform.value, p.brightness))
  }

  predicate LinesRenderable(o: Output, ls: seq<Line>)
  {
    forall k :: 0 <= k < |ls| ==> LineRenderable(o, ls[k])
  }

  predicate PointsRenderable(o: Output, ps: seq<Point>)
  {
    forall k :: 0 <= k < |ps| ==> PointRenderable(o, ps[k])
  }

  /** The writes of drawPoint(p). */
  function PointEvents(o: Output, p: Vector2): seq<Event>
    requires Drawable(p, o.half)
  {
    Emit([(Transform(p.x, o.half), Transform(p.y, o.half))], o.bits)
  }

  /** The writes of drawLine(a, b). */
  function SegmentEvents(o: Output, a: Vector2, b: Vector2): seq<Event>
    requires Drawable(a, o.half) && Drawable(b, o.half)
  {
    Emit(LinePoints(Transform(a.x, o.half), Transform(a.y, o.half),
                    Transform(b.x, o.half), Transform(b.y, o.half)), o.bits)
  }

  /** The first k steps of the brightness ramp at point a: each draws the
      point, then writes the level of z = step * index. */
  function RampEvents(o: Output, t: BrightnessTransform, a: Vector2, brightness: real, k: nat): seq<Event>
    requires Drawable(a, o.half) && InDomain(t, brightness) && k <= RampCount(brightness)
  {
    if k == 0 then []
    else
      RampInDomain(t, brightness, k - 1);
      RampEvents(o, t, a, brightness, k - 1) + PointEvents(o, a)
        + [Level(Apply(t, (k - 1) as real * RampStep))]
  }

  /** The blanking transit from `from` to the start of l: beam off, move,
      ramp up, then the line's own brightness. */
  function BlankingEvents(o: Output, t: BrightnessTransform, from: Vector2, l: Line): seq<Event>
    requires Drawable(from, o.half) && Drawable(l.a, o.half) && InDomain(t, l.brightness)
  {
    [Level(Apply(t, 0.0))] + SegmentEvents(o, from, l.a)
      + RampEvents(o, t, l.a, l.brightness, RampCount(l.brightness))
      + [Level(Apply(t, l.brightness))]
  }

  /** The writes for one clipped line with the beam at `beam`: a transit
      only with a brightness writer and a beam away from the line's start. */
  function LineEvents(o: Output, beam: Vector2, l: Line): seq<Event>
    requires Drawable(beam, o.half) && LineRenderable(o, l)
  {
    (if o.transform.Some? && beam != l.a then BlankingEvents(o, o.transform.value, beam, l) else [])
      + SegmentEvents(o, l.a, l.b)
  }

  /** Where the beam is after drawing ls from `beam`: the end of the last line. */
  function FinalBeam(beam: Vector2, ls: seq<Line>): Vector2
  {
    if |ls| == 0 then beam else ls[|ls| - 1].b
  }

  /** The writes of the line loop of render. */
  function LinesEvents(o: Output, beam: Vector2, ls: seq<Line>): seq<Event>
    requires Drawable(beam, o.half) && LinesRenderable(o, ls)
  {
    if |ls| == 0 then []
    else
      var n := |ls| - 1;
      LinesEvents(o, beam, ls[..n]) + LineEvents(o, FinalBeam(beam, ls[..n]), ls[n])
  }

  /** The brightness write before a point, when there is a brightness writer. */
  function PointLevel(o: Output, p: Point): seq<Event>
    requires PointRenderable(o, p)
  {
    if o.transform.Some? then [Level(Apply(o.transform.value, p.brightness))] else []
  }

  /** The writes of the point loop of render. */
  function PointsEvents(o: Output, ps: seq<Point>): seq<Event>
    requires PointsRenderable(o, ps)
  {
    if |ps| == 0 then []
    else
      var p := ps[|ps| - 1];
      PointsEvents(o, ps[..|ps| - 1]) + PointLevel(o, p) + PointEvents(o, Vector2(p.x, p.y))
  }

  /** The beam is turned off between the lines and the points. */
  function OffEvents(o: Output): seq<Event>
  {
    if o.transform.Some? then
      ApplyLandmarks(o.transform.value);
      [Level(Apply(o.transform.value, 0.0))]
    else []
  }

  /** The last write of a frame: transform(1.0) with a brightness writer,
      otherwise a drawPoint at the blanking point. */
  function FinishEvents(o: Output, blank: Vector2): seq<Event>
    requires Drawable(blank, o.half)
  {
    if o.transform.Some? then
      ApplyLandmarks(o.transform.value);
      [Level(Apply(o.transform.value, 1.0))]
    else PointEvents(o, blank)
  }

  /** All writes of render: lines, beam off, points, finish. */
  function FrameEvents(o: Output, beam: Vector2, blank: Vector2, ls: seq<Line>, ps: seq<Point>): seq<Event>
    requires Drawable(beam, o.half) && Drawable(blank, o.half)
    requires LinesRenderable(o, ls) && PointsRenderable(o, ps)
  {
    LinesEvents(o, beam, ls) + OffEvents(o) + PointsEvents(o, ps) + FinishEvents(o, blank)
  }

  // ---------------------------------------------------------------------
  // Properties of the frame's writes

  /** The number of brightness writes in a trace. */
  function Levels(es: seq<Event>): nat
  {
    if |es| == 0 then 0 else Levels(es[..|es| - 1]) + (if es[|es| - 1].Level? then 1 else 0)
  }

  lemma {:induction false} LevelsAppend(es: seq<Event>, fs: seq<Event>)
    ensures Levels(es + fs) == Levels(es) + Levels(fs)
    decreases |fs|
  {
    if |fs| == 0 {
      assert es + fs == es;
    } else {
      var n := |fs| - 1;
      assert (es + fs)[..|es + fs| - 1] == es + fs[..n];
      assert (es + fs)[|es + fs| - 1] == fs[n];
      LevelsAppend(es, fs[..n]);
    }
  }

  /** Position writes only: no brightness writes. */
  lemma {:induction false} EmitNoLevels(ps: seq<(int, int)>, bits: nat)
    ensures Levels(Emit(ps, bits)) == 0
    decreases |ps|
  {
    if |ps| > 0 {
      var n := |ps| - 1;
      assert Emit(ps, bits)[..n] == Emit(ps[..n], bits);
      EmitNoLevels(ps[..n], bits);
    }
  }

  /** Without a brightness writer the line loop writes positions only. */
  lemma {:induction false} LinesNoLevels(o: Output, beam: Vector2, ls: seq<Line>)
    requires o.transform.None? && Drawable(beam, o.half) && LinesRenderable(o, ls)
    ensures Levels(LinesEvents(o, beam, ls)) == 0
    decreases |ls|
  {
    if |ls| > 0 {
      var n := |ls| - 1;
      var l := ls[n];
      var prefix := ls[..n];
      assert LinesRenderable(o, prefix);
      LinesNoLevels(o, beam, prefix);
      var seg := SegmentEvents(o, l.a, l.b);
      EmitNoLevels(LinePoints(Transform(l.a.x, o.half), Transform(l.a.y, o.half),
                              Transform(l.b.x, o.half), Transform(l.b.y, o.half)), o.bits);
      assert LineEvents(o, FinalBeam(beam, prefix), l) == seg;
      assert LinesEvents(o, beam, ls) == LinesEvents(o, beam, prefix) + seg;
      LevelsAppend(LinesEvents(o, beam, prefix), seg);
    }
  }

  /** One brightness write per point with a brightness writer, none without. */
  lemma {:induction false} PointsLevels(o: Output, ps: seq<Point>)
    requires PointsRenderable(o, ps)
    ensures Levels(PointsEvents(o, ps)) == if o.transform.Some? then |ps| else 0
    ensures |PointsEvents(o, ps)| == if o.transform.Some? then 2 * |ps| else |ps|
    decreases |ps|
  {
    if |ps| > 0 {
      var n := |ps| - 1;
      var p := ps[n];
      PointsLevels(o, ps[..n]);
      EmitNoLevels([(Transform(p.x, o.half), Transform(p.y, o.half))], o.bits);
      LevelsAppend(PointsEvents(o, ps[..n]), PointLevel(o, p));
      LevelsAppend(PointsEvents(o, ps[..n]) + PointLevel(o, p), PointEvents(o, Vector2(p.x, p.y)));
    }
  }

  /** With a brightness writer, point i is drawn right after its own
      brightness write. */
  lemma {:induction false} PointsEventsAt(o: Output, ps: seq<Point>, i: nat)
    requires o.transform.Some? && PointsRenderable(o, ps) && i < |ps|
    ensures 2 * i + 1 < |PointsEvents(o, ps)|
      && PointsEvents(o, ps)[2 * i] == Level(Apply(o.transform.value, ps[i].brightness))
      && PointsEvents(o, ps)[2 * i + 1] == PointEvents(o, Vector2(ps[i].x, ps[i].y))[0]
    decreases |ps|
  {
    var n := |ps| - 1;
    PointsLevels(o, ps[..n]);
    if i < n {
      PointsEventsAt(o, ps[..n], i);
    }
  }

  /** Without a brightness writer, a frame writes no brightness at all and
      ends by moving the beam to the blanking point. */
  lemma FrameWithoutWriter(o: Output, beam: Vector2, blank: Vector2, ls: seq<Line>, ps: seq<Point>)
    requires o.transform.None? && Drawable(beam, o.half) && Drawable(blank, o.half)
    requires LinesRenderable(o, ls) && PointsRenderable(o, ps)
    ensures Levels(FrameEvents(o, beam, blank, ls, ps)) == 0
    ensures var es := FrameEvents(o, beam, blank, ls, ps);
      |es| > 0 && es[|es| - 1] == Position(DacScale.Shift(Transform(blank.x, o.half), o.bits),
                                            DacScale.Shift(Transform(blank.y, o.half), o.bits))
  {
    var lines := LinesEvents(o, beam, ls);
    var points := PointsEvents(o, ps);
    var finish := PointEvents(o, blank);
    assert OffEvents(o) == [] && FinishEvents(o, blank) == finish;
    assert FrameEvents(o, beam, blank, ls, ps) == lines + points + finish by {
      assert lines + OffEvents(o) == lines;
    }
    LinesNoLevels(o, beam, ls);
    PointsLevels(o, ps);
    EmitNoLevels([(Transform(blank.x, o.half), Transform(blank.y, o.half))], o.bits);
    LevelsAppend(lines, points);
    LevelsAppend(lines + points, finish);
  }

  /** With a brightness writer, the frame's last write is transform(1.0):
      maxValue for the linear transform, 0 for the inverted one. */
  lemma FrameWithWriter(o: Output, beam: Vector2, blank: Vector2, ls: seq<Line>, ps: seq<Point>)
    requires o.transform.Some? && Drawable(beam, o.half) && Drawable(blank, o.half)
    requires LinesRenderable(o, ls) && PointsRenderable(o, ps)
    ensures var es := FrameEvents(o, beam, blank, ls, ps);
      |es| > 0 && es[|es| - 1] == Level(if o.transform.value.Linear? then o.transform.value.maxValue else 0)
  {
    ApplyLandmarks(o.transform.value);
  }

  /** Lines that follow on from each other, the first starting at the beam. */
  predicate Chained(beam: Vector2, ls: seq<Line>)
  {
    (|ls| > 0 ==> ls[0].a == beam) && forall k :: 0 < k < |ls| ==> ls[k - 1].b == ls[k].a
  }

  /** The strokes alone: one drawLine per line. */
  function Strokes(o: Output, ls: seq<Line>): seq<Event>
    requires LinesRenderable(o, ls)
  {
    if |ls| == 0 then [] else Strokes(o, ls[..|ls| - 1]) + SegmentEvents(o, ls[|ls| - 1].a, ls[|ls| - 1].b)
  }

  /** A chain of lines starting at the beam is drawn without any blanking
      transit: only its strokes. */
  lemma {:induction false} ChainedNoBlanking(o: Output, beam: Vector2, ls: seq<Line>)
    requires Drawable(beam, o.half) && LinesRenderable(o, ls) && Chained(beam, ls)
    ensures LinesEvents(o, beam, ls) == Strokes(o, ls)
    decreases |ls|
  {
    if |ls| > 0 {
      var n := |ls| - 1;
      assert Chained(beam, ls[..n]);
      ChainedNoBlanking(o, beam, ls[..n]);
      assert FinalBeam(beam, ls[..n]) == ls[n].a;
    }
  }

  /** The viewport outline drawn from its top-left corner needs no transit:
      the four lines form one closed chain. */
  lemma OutlineNoBlanking(o: Output, vp: Viewport)
    requires LinesRenderable(o, ViewportLines(vp)) && Drawable(Corners(vp)[0], o.half)
    ensures LinesEvents(o, Corners(vp)[0], ViewportLines(vp)) == Strokes(o, ViewportLines(vp))
  {
    ViewportLinesClosed(vp);
    ChainedNoBlanking(o, Corners(vp)[0], ViewportLines(vp));
  }

  /** A line away from the beam with a brightness writer starts with the
      beam-off write and ends its transit with the line's own brightness;
      the ramp between them has two writes per step. */
  lemma {:induction false} RampShape(o: Output, t: BrightnessTransform, a: Vector2, brightness: real, k: nat)
    requires Drawable(a, o.half) && InDomain(t, brightness) && k <= RampCount(brightness)
    ensures |RampEvents(o, t, a, brightness, k)| == 2 * k
    ensures forall i :: 0 <= i < k ==>
      RampEvents(o, t, a, brightness, k)[2 * i] == PointEvents(o, a)[0]
      && InDomain(t, i as real * RampStep)
      && RampEvents(o, t, a, brightness, k)[2 * i + 1] == Level(Apply(t, i as real * RampStep))
    decreases k
  {
    if k > 0 {
      RampShape(o, t, a, brightness, k - 1);
      RampInDomain(t, brightness, k - 1);
    }
  }

  lemma ConcatFour(start: seq<Event>, a: seq<Event>, b: seq<Event>, c: seq<Event>, d: seq<Event>)
    ensures start + a + b + c + d == start + (a + b + c + d)
  {
  }

  lemma AppendAssoc(a: seq<Event>, b: seq<Event>, c: seq<Event>)
    ensures (a + b) + c == a + (b + c)
  {
  }

  lemma LinesEventsStep(o: Output, beam: Vector2, ls: seq<Line>, i: nat)
    requires Drawable(beam, o.half) && LinesRenderable(o, ls) && i < |ls|
    ensures LinesRenderable(o, ls[..i]) && LinesRenderable(o, ls[..i + 1])
    ensures Drawable(FinalBeam(beam, ls[..i]), o.half) && FinalBeam(beam, ls[..i + 1]) == ls[i].b
    ensures LinesEvents(o, beam, ls[..i + 1]) == LinesEvents(o, beam, ls[..i]) + LineEvents(o, FinalBeam(beam, ls[..i]), ls[i])
  {
    assert ls[..i + 1][..i] == ls[..i];
  }

  lemma PointsEventsStep(o: Output, ps: seq<Point>, i: nat)
    requires PointsRenderable(o, ps) && i < |ps|
    ensures PointsRenderable(o, ps[..i]) && PointsRenderable(o, ps[..i + 1])
    ensures PointsEvents(o, ps[..i + 1]) == PointsEvents(o, ps[..i]) + PointLevel(o, ps[i]) + PointEvents(o, Vector2(ps[i].x, ps[i].y))
  {
    assert ps[..i + 1][..i] == ps[..i];
  }

  // ---------------------------------------------------------------------
  // The Renderer

  class Renderer {
    /** The line increment; the rasterizer ignores it. */
    const increment: nat
    const pipeline: ObjectPipelines.ObjectPipeline
    const rasterizer: Rasterizer
    /** The brightness writer's transform, when a brightness writer is attached. */
    const transform: Option<BrightnessTransform>
    const lines: Buffer<Line>
    const points: Buffer<Point>
    const clippedLines: Buffer<Line>
    const clippedPoints: Buffer<Point>
    var beamPosition: Vector2
    var viewport: Viewport
    var blankingPoint: Vector2
    var lightIntensity: real

    ghost predicate Valid()
      reads this, lines, points, clippedLines, clippedPoints, pipeline.clippedVertices
    {
      && lines.Valid() && points.Valid() && clippedLines.Valid() && clippedPoints.Valid()
      && pipeline.clippedVertices.Valid()
      && lines != clippedLines && lines.elements != clippedLines.elements
      && points != clippedPoints && points.elements != clippedPoints.elements
      && clippedLines.Capacity() == lines.Capacity() && clippedPoints.Capacity() == points.Capacity()
    }

    function Out(): Output
    {
      Output(rasterizer.scaleValueHalf, rasterizer.scaleBits, transform)
    }

    /** Lines and clipped lines hold maxLines, points and clipped points
        maxPoints; the viewport, blanking point and beam start at their
        defaults. */
    constructor (increment: nat, rasterizer: Rasterizer, transform: Option<BrightnessTransform>,
                 maxLines: nat, maxPoints: nat)
      ensures Valid() && this.increment == increment && this.rasterizer == rasterizer && this.transform == transform
      ensures lines.Capacity() == maxLines && points.Capacity() == maxPoints
      ensures lines.Contents() == [] && points.Contents() == []
      ensures pipeline.clippedVertices.Capacity() == maxLines
      ensures viewport == Viewport(-1.0, 1.0, 0.75, -0.75)
      ensures blankingPoint == Vector2(1.0, 1.0) && beamPosition == Vector2(0.0, 0.0)
      ensures lightIntensity == 10.0
      ensures fresh(lines) && fresh(lines.elements) && fresh(points) && fresh(points.elements)
      ensures fresh(clippedLines) && fresh(clippedLines.elements) && fresh(clippedPoints) && fresh(clippedPoints.elements)
      ensures fresh(pipeline) && fresh(pipeline.clippedVertices) && fresh(pipeline.clippedVertices.elements)
    {
      this.increment := increment;
      pipeline := new ObjectPipelines.ObjectPipeline(maxLines);
      this.rasterizer := rasterizer;
      this.transform := transform;
      lines := new Buffer<Line>(maxLines);
      points := new Buffer<Point>(maxPoints);
      clippedLines := new Buffer<Line>(maxLines);
      clippedPoints := new Buffer<Point>(maxPoints);
      beamPosition := Vector2(0.0, 0.0);
      viewport := Viewport(-1.0, 1.0, 0.75, -0.75);
      blankingPoint := Vector2(1.0, 1.0);
      lightIntensity := 10.0;
    }

    method SetViewport(viewport: Viewport)
      modifies this`viewport
      ensures this.viewport == viewport
    {
      this.viewport := viewport;
    }

    method SetBlankingPoint(blankingPoint: Vector2)
      modifies this`blankingPoint
      ensures this.blankingPoint == blankingPoint
    {
      this.blankingPoint := blankingPoint;
    }

    /** clear: the frame's lines and points are dropped. */
    method Clear()
      requires Valid()
      modifies lines`index, points`index
      ensures Valid() && lines.Contents() == [] && points.Contents() == []
    {
      lines.Clear();
      points.Clear();
    }

    method AddLine(line: Line)
      requires Valid() && lines.Size() < lines.Capacity()
      modifies lines, lines.elements
      ensures Valid() && lines.Contents() == old(lines.Contents()) + [line]
    {
      lines.Push(line);
    }

    method AddPoint(point: Point)
      requires Valid() && points.Size() < points.Capacity()
      modifies points, points.elements
      ensures Valid() && points.Contents() == old(points.Contents()) + [point]
    {
      points.Push(point);
    }

    /** addViewport: the outline of the current viewport, four lines. */
    method AddViewport()
      requires Valid() && lines.Size() + 4 <= lines.Capacity()
      modifies lines, lines.elements
      ensures Valid() && lines.Contents() == old(lines.Contents()) + ViewportLines(viewport)
    {
      var corners := Corners(viewport);
      for i := 0 to 4
        invariant Valid() && lines.Contents() == old(lines.Contents()) + ViewportLines(viewport)[..i]
      {
        AddLine(Line(corners[i], corners[(i + 1) % 4], 1.0));
        assert ViewportLines(viewport)[..i + 1] == ViewportLines(viewport)[..i] + [ViewportLines(viewport)[i]];
      }
      assert ViewportLines(viewport)[..4] == ViewportLines(viewport);
    }

    /** add(object, camera): the object pipeline appends the object's
        visible edges to the frame's lines, one per drawn edge, in edge
        order, each as the pipeline emits it. */
    method AddObject(obj: Objects.Object, angles: seq<real>, clip: (Vector4, Vector4) -> ObjectPipelines.NearFarClip,
                     divide: Vector4 -> Vector4)
      requires Valid() && obj.mesh != null && obj.mesh.Valid()
      requires obj.mesh.transformed != pipeline.clippedVertices.elements
      requires |angles| == |obj.mesh.faces|
      requires var st := ObjectPipelines.ClipStage(obj.culling,
                    ObjectPipelines.FaceVisibilities(obj.culling, obj.shading, angles), obj.mesh.transformed[..], clip);
        ObjectPipelines.AllWired(st, obj.mesh.edges)
        && |ObjectPipelines.Added(st, obj.mesh.edges)| <= pipeline.clippedVertices.Capacity()
        && lines.Size() + ObjectPipelines.Count(ObjectPipelines.DrawnFlags(st, obj.mesh.edges)) <= lines.Capacity()
      modifies obj.mesh.vertexVisible, obj.mesh.faceVisible, obj.mesh.edgeVisible, obj.mesh.edgeCulled
      modifies obj.mesh.clipped, obj.mesh.transformed, pipeline.clippedVertices, pipeline.clippedVertices.elements
      modifies lines, lines.elements
      ensures Valid()
      ensures var mesh := obj.mesh;
        var st := ObjectPipelines.ClipStage(obj.culling,
                    ObjectPipelines.FaceVisibilities(obj.culling, obj.shading, angles), old(mesh.transformed[..]), clip);
        && mesh.faceVisible[..] == st.faceVisible
        && mesh.edgeCulled[..] == ObjectPipelines.CulledFlags(st, mesh.edges)
        && mesh.edgeVisible[..] == ObjectPipelines.DrawnFlags(st, mesh.edges)
        && pipeline.clippedVertices.Contents() == ObjectPipelines.Divided(ObjectPipelines.Added(st, mesh.edges), divide)
        && lines.Size() == old(lines.Size()) + ObjectPipelines.Count(ObjectPipelines.DrawnFlags(st, mesh.edges))
        && var es := ObjectPipelines.EmitStage(obj.shading, obj.brightness, obj.hiddenBrightness,
                                               mesh.transformed[..], pipeline.clippedVertices.Contents());
           ObjectPipelines.Ready(es, mesh.edgeVisible[..], mesh.edgeCulled[..], mesh.clipped[..])
           && lines.Contents() == old(lines.Contents())
                + ObjectPipelines.Emitted(es, mesh.edgeVisible[..], mesh.edgeCulled[..], mesh.clipped[..])
    {
      pipeline.Process(obj, angles, clip, divide, lines);
    }

    /** render: filter, draw the lines with blanking transits, turn the beam
        off, draw the points, finish. The frame's input is left as it was. */
    method Render()
      requires Valid()
      requires Drawable(beamPosition, Out().half) && Drawable(blankingPoint, Out().half)
      requires LinesRenderable(Out(), ClippedLines(lines.Contents(), viewport))
      requires PointsRenderable(Out(), KeptPoints(points.Contents(), viewport))
      modifies clippedLines, clippedLines.elements, clippedPoints, clippedPoints.elements
      modifies rasterizer.device`events, this`beamPosition
      ensures Valid() && lines.Contents() == old(lines.Contents()) && points.Contents() == old(points.Contents())
      ensures clippedLines.Contents() == ClippedLines(lines.Contents(), viewport)
      ensures clippedPoints.Contents() == KeptPoints(points.Contents(), viewport)
      ensures beamPosition == FinalBeam(old(beamPosition), clippedLines.Contents())
      ensures rasterizer.device.events == old(rasterizer.device.events)
        + FrameEvents(Out(), old(beamPosition), blankingPoint, clippedLines.Contents(), clippedPoints.Contents())
    {
      FilterLines(lines, clippedLines, viewport);
      FilterPoints(points, clippedPoints, viewport);
      DrawFrame();
    }

    /** The drawing half of render, over the clipped lines and points. */
    method DrawFrame()
      requires Valid() && Drawable(beamPosition, Out().half) && Drawable(blankingPoint, Out().half)
      requires LinesRenderable(Out(), clippedLines.Contents()) && PointsRenderable(Out(), clippedPoints.Contents())
      modifies rasterizer.device`events, this`beamPosition
      ensures beamPosition == FinalBeam(old(beamPosition), clippedLines.Contents())
      ensures rasterizer.device.events == old(rasterizer.device.events)
        + FrameEvents(Out(), old(beamPosition), blankingPoint, clippedLines.Contents(), clippedPoints.Contents())
    {
      ghost var o := Out();
      ghost var start := rasterizer.device.events;
      DrawLines();
      ghost var afterLines := rasterizer.device.events;
      TurnOff();
      ghost var afterOff := rasterizer.device.events;
      DrawPoints();
      ghost var afterPoints := rasterizer.device.events;
      Finish();
      ConcatFour(start, LinesEvents(o, old(beamPosition), clippedLines.Contents()), OffEvents(o),
                 PointsEvents(o, clippedPoints.Contents()), FinishEvents(o, blankingPoint));
    }

    /** Beam off between lines and points, with a brightness writer. */
    method TurnOff()
      modifies rasterizer.device`events
      ensures rasterizer.device.events == old(rasterizer.device.events) + OffEvents(Out())
    {
      if transform.Some? {
        ApplyLandmarks(transform.value);
        rasterizer.device.WriteLevel(Apply(transform.value, 0.0));
      }
    }

    /** The end of the frame: transform(1.0), or the beam to the blanking point. */
    method Finish()
      requires Drawable(blankingPoint, Out().half)
      modifies rasterizer.device`events
      ensures rasterizer.device.events == old(rasterizer.device.events) + FinishEvents(Out(), blankingPoint)
    {
      if transform.Some? {
        ApplyLandmarks(transform.value);
        rasterizer.device.WriteLevel(Apply(transform.value, 1.0));
      } else {
        rasterizer.DrawPoint(blankingPoint);
      }
    }

    /** The line loop of render. */
    method DrawLines()
      requires Valid() && Drawable(beamPosition, Out().half) && LinesRenderable(Out(), clippedLines.Contents())
      modifies rasterizer.device`events, this`beamPosition
      ensures beamPosition == FinalBeam(old(beamPosition), clippedLines.Contents())
      ensures rasterizer.device.events == old(rasterizer.device.events)
        + LinesEvents(Out(), old(beamPosition), clippedLines.Contents())
    {
      ghost var ls := clippedLines.Contents();
      ghost var o := Out();
      ghost var beam := beamPosition;
      ghost var start := rasterizer.device.events;
      for i := 0 to clippedLines.Size()
        invariant clippedLines.Valid() && clippedLines.Contents() == ls
        invariant beamPosition == FinalBeam(beam, ls[..i]) && Drawable(beamPosition, o.half)
        invariant rasterizer.device.events == start + LinesEvents(o, beam, ls[..i])
      {
        var line := clippedLines.Get(i);
        LinesEventsStep(o, beam, ls, i);
        ghost var prev := LinesEvents(o, beam, ls[..i]);
        ghost var step := LineEvents(o, FinalBeam(beam, ls[..i]), ls[i]);
        DrawClippedLine(line);
        assert rasterizer.device.events == (start + prev) + step;
        AppendAssoc(start, prev, step);
      }
      assert ls[..clippedLines.Size()] == ls;
    }

    /** One iteration of the line loop: the transit when needed, the line,
        and the beam left at its end. */
    method DrawClippedLine(line: Line)
      requires Drawable(beamPosition, Out().half) && LineRenderable(Out(), line)
      modifies rasterizer.device`events, this`beamPosition
      ensures beamPosition == line.b
      ensures rasterizer.device.events == old(rasterizer.device.events) + LineEvents(Out(), old(beamPosition), line)
    {
      if transform.Some? && (beamPosition.x != line.a.x || beamPosition.y != line.a.y) {
        Blank(transform.value, line);
      }
      rasterizer.DrawLine(line.a, line.b);
      beamPosition := line.b;
    }

    /** The blanking transit to the start of line. */
    method Blank(t: BrightnessTransform, line: Line)
      requires Drawable(beamPosition, Out().half) && Drawable(line.a, Out().half) && InDomain(t, line.brightness)
      modifies rasterizer.device`events
      ensures rasterizer.device.events == old(rasterizer.device.events) + BlankingEvents(Out(), t, beamPosition, line)
    {
      ApplyLandmarks(t);
      rasterizer.device.WriteLevel(Apply(t, 0.0));
      rasterizer.DrawLine(beamPosition, line.a);
      Ramp(t, line.a, line.brightness);
      rasterizer.device.WriteLevel(Apply(t, line.brightness));
    }

    /** The brightness ramp: `for (z = 0; z < brightness; z += step)`,
        drawing the point and writing the level of z each time. */
    method Ramp(t: BrightnessTransform, a: Vector2, brightness: real)
      requires Drawable(a, Out().half) && InDomain(t, brightness)
      modifies rasterizer.device`events
      ensures rasterizer.device.events == old(rasterizer.device.events)
        + RampEvents(Out(), t, a, brightness, RampCount(brightness))
    {
      var z := 0.0;
      ghost var k: nat := 0;
      while z < brightness
        invariant z == k as real * RampStep && k <= RampCount(brightness)
        invariant rasterizer.device.events == old(rasterizer.device.events) + RampEvents(Out(), t, a, brightness, k)
        decreases RampCount(brightness) - k
      {
        RampContinues(brightness, k);
        RampInDomain(t, brightness, k);
        rasterizer.DrawPoint(a);
        rasterizer.device.WriteLevel(Apply(t, z));
        z := z + RampStep;
        k := k + 1;
      }
      RampContinues(brightness, k);
    }

    /** The point loop of render. */
    method DrawPoints()
      requires Valid() && PointsRenderable(Out(), clippedPoints.Contents())
      modifies rasterizer.device`events
      ensures rasterizer.device.events == old(rasterizer.device.events) + PointsEvents(Out(), clippedPoints.Contents())
    {
      ghost var ps := clippedPoints.Contents();
      for i := 0 to clippedPoints.Size()
        invariant rasterizer.device.events == old(rasterizer.device.events) + PointsEvents(Out(), ps[..i])
      {
        PointsEventsStep(Out(), ps, i);
        var point := clippedPoints.Get(i);
        if transform.Some? {
          rasterizer.device.WriteLevel(Apply(transform.value, point.brightness));
        }
        rasterizer.DrawPoint(Vector2(point.x, point.y));
      }
      assert ps[..clippedPoints.Size()] == ps;
    }
  }
}
