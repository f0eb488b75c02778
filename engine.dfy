/** The older Engine (Engine.cpp): the same collect, filter and draw cycle
    as the Renderer, without beam tracking or blanking transits. Each
    clipped line and point is preceded by its brightness when a brightness
    writer is attached, through the fixed transform floor((1 - v) * 4095);
    the frame ends with the level 4095 (beam off) or at the blanking point.

    Engine.h, a declaration-only header, disagrees with Engine.cpp (it has
    no brightness writer and stores Line2D and Vector2); the model follows
    Engine.cpp. */
module Engines {
  import opened Wrappers
  import opened Geometry
  import opened Arrays
  import opened Writers
  import opened Clipper
  import opened Rasterizing
  import opened Frames
  import opened Brightness
  import opened Rendering

  /** The Engine's writes are the Renderer's with the inverted 12-bit
      transform in place of a configurable one. */
  function EngineOutput(half: nat, bits: nat, hasBrightnessWriter: bool): Output
  {
    Output(half, bits, if hasBrightnessWriter then Some(InvertedLinear(4095)) else None)
  }

  /** The brightness write before a line, when there is a brightness writer. */
  function LineLevel(o: Output, l: Line): seq<Event>
    requires LineRenderable(o, l)
  {
    if o.transform.Some? then [Level(Apply(o.transform.value, l.brightness))] else []
  }

  /** The writes of the Engine's line loop: per line, its level, then the stroke. */
  function EngineLinesEvents(o: Output, ls: seq<Line>): seq<Event>
    requires LinesRenderable(o, ls)
  {
    if |ls| == 0 then []
    else
      var l := ls[|ls| - 1];
      EngineLinesEvents(o, ls[..|ls| - 1]) + LineLevel(o, l) + SegmentEvents(o, l.a, l.b)
  }

  /** The end of an Engine frame: the level 4095 or the blanking point. */
  function EngineFinishEvents(o: Output, blank: Vector2): seq<Event>
    requires Drawable(blank, o.half)
  {
    if o.transform.Some? then [Level(4095)] else PointEvents(o, blank)
  }

  function EngineFrameEvents(o: Output, blank: Vector2, ls: seq<Line>, ps: seq<Point>): seq<Event>
    requires Drawable(blank, o.half) && LinesRenderable(o, ls) && PointsRenderable(o, ps)
  {
    EngineLinesEvents(o, ls) + PointsEvents(o, ps) + EngineFinishEvents(o, blank)
  }

  /** One brightness write per line with a brightness writer, none without. */
  lemma {:induction false} EngineLinesLevels(o: Output, ls: seq<Line>)
    requires LinesRenderable(o, ls)
    ensures Levels(EngineLinesEvents(o, ls)) == if o.transform.Some? then |ls| else 0
    decreases |ls|
  {
    if |ls| > 0 {
      var n := |ls| - 1;
      var l := ls[n];
      var prefix := ls[..n];
      assert LinesRenderable(o, prefix);
      EngineLinesLevels(o, prefix);
      EmitNoLevels(LinePoints(Transform(l.a.x, o.half), Transform(l.a.y, o.half),
                              Transform(l.b.x, o.half), Transform(l.b.y, o.half)), o.bits);
      LevelsAppend(EngineLinesEvents(o, prefix), LineLevel(o, l));
      LevelsAppend(EngineLinesEvents(o, prefix) + LineLevel(o, l), SegmentEvents(o, l.a, l.b));
    }
  }

  /** A frame with a brightness writer has one brightness write per line,
      one per point, and the closing 4095; without one it has none. */
  lemma EngineFrameLevels(o: Output, blank: Vector2, ls: seq<Line>, ps: seq<Point>)
    requires Drawable(blank, o.half) && LinesRenderable(o, ls) && PointsRenderable(o, ps)
    ensures Levels(EngineFrameEvents(o, blank, ls, ps)) == if o.transform.Some? then |ls| + |ps| + 1 else 0
  {
    EngineLinesLevels(o, ls);
    PointsLevels(o, ps);
    EmitNoLevels([(Transform(blank.x, o.half), Transform(blank.y, o.half))], o.bits);
    LevelsAppend(EngineLinesEvents(o, ls), PointsEvents(o, ps));
    LevelsAppend(EngineLinesEvents(o, ls) + PointsEvents(o, ps), EngineFinishEvents(o, blank));
    assert Levels([Level(4095)]) == 1 by {
      assert [Level(4095)][..0] == [];
    }
  }

  /** The closing 4095 is the Engine's level for brightness 0: the beam is
      turned off, the opposite of the Renderer's closing transform(1.0)
      under the same inverted transform. */
  lemma EngineFinishIsOff(half: nat, bits: nat, blank: Vector2)
    requires Drawable(blank, half)
    ensures EngineFinishEvents(EngineOutput(half, bits, true), blank) == [Level(EngineLevel(0.0))]
    ensures FinishEvents(EngineOutput(half, bits, true), blank) == [Level(EngineLevel(1.0))]
    ensures EngineLevel(0.0) != EngineLevel(1.0)
  {
    EngineLevelIsInverted(0.0);
    EngineLevelIsInverted(1.0);
  }

  lemma EngineLinesStep(o: Output, ls: seq<Line>, i: nat)
    requires LinesRenderable(o, ls) && i < |ls|
    ensures LinesRenderable(o, ls[..i]) && LinesRenderable(o, ls[..i + 1])
    ensures EngineLinesEvents(o, ls[..i + 1]) == EngineLinesEvents(o, ls[..i]) + (LineLevel(o, ls[i]) + SegmentEvents(o, ls[i].a, ls[i].b))
  {
    assert ls[..i + 1][..i] == ls[..i];
  }

  class Engine {
    const rasterizer: Rasterizer
    const hasBrightnessWriter: bool
    const lines: Buffer<Line>
    const points: Buffer<Point>
    const clippedLines: Buffer<Line>
    const clippedPoints: Buffer<Point>
    var viewport: Viewport
    var blankingPoint: Vector2

    ghost predicate Valid()
      reads this, lines, points, clippedLines, clippedPoints
    {
      && lines.Valid() && points.Valid() && clippedLines.Valid() && clippedPoints.Valid()
      && lines != clippedLines && lines.elements != clippedLines.elements
      && points != clippedPoints && points.elements != clippedPoints.elements
      && clippedLines.Capacity() == lines.Capacity() && clippedPoints.Capacity() == points.Capacity()
    }

    function Out(): Output
    {
      EngineOutput(rasterizer.scaleValueHalf, rasterizer.scaleBits, hasBrightnessWriter)
    }

    constructor (rasterizer: Rasterizer, hasBrightnessWriter: bool, maxLines: nat, maxPoints: nat)
      ensures Valid() && this.rasterizer == rasterizer && this.hasBrightnessWriter == hasBrightnessWriter
      ensures lines.Capacity() == maxLines && points.Capacity() == maxPoints
      ensures lines.Contents() == [] && points.Contents() == []
      ensures viewport == Viewport(-1.0, 1.0, 0.75, -0.75) && blankingPoint == Vector2(1.0, 1.0)
      ensures fresh(lines) && fresh(lines.elements) && fresh(points) && fresh(points.elements)
      ensures fresh(clippedLines) && fresh(clippedLines.elements) && fresh(clippedPoints) && fresh(clippedPoints.elements)
    {
      this.rasterizer := rasterizer;
      this.hasBrightnessWriter := hasBrightnessWriter;
      lines := new Buffer<Line>(maxLines);
      points := new Buffer<Point>(maxPoints);
      clippedLines := new Buffer<Line>(maxLines);
      clippedPoints := new Buffer<Point>(maxPoints);
      viewport := Viewport(-1.0, 1.0, 0.75, -0.75);
      blankingPoint := Vector2(1.0, 1.0);
    }

    method SetViewport(viewport: Viewport)
      modifies this`viewport
      ensures this.viewport == viewport
    {
      this.viewport := viewport;
    }

    method SetBlankingPoint(blankingPoint: Vector2)
      modifies this`blankingPoint
      ensures this.blankingPoint == blankingPoint
    {
      this.blankingPoint := blankingPoint;
    }

    method Clear()
      requires Valid()
      modifies lines`index, points`index
      ensures Valid() && lines.Contents() == [] && points.Contents() == []
    {
      lines.Clear();
      points.Clear();
    }

    method AddLine(line: Line)
      requires Valid() && lines.Size() < lines.Capacity()
      modifies lines, lines.elements
      ensures Valid() && lines.Contents() == old(lines.Contents()) + [line]
    {
      lines.Push(line);
    }

    method AddPoint(point: Point)
      requires Valid() && points.Size() < points.Capacity()
      modifies points, points.elements
      ensures Valid() && points.Contents() == old(points.Contents()) + [point]
    {
      points.Push(point);
    }

    method AddViewport()
      requires Valid() && lines.Size() + 4 <= lines.Capacity()
      modifies lines, lines.elements
      ensures Valid() && lines.Contents() == old(lines.Contents()) + ViewportLines(viewport)
    {
      var corners := Corners(viewport);
      for i := 0 to 4
        invariant Valid() && lines.Contents() == old(lines.Contents()) + ViewportLines(viewport)[..i]
      {
        AddLine(Line(corners[i], corners[(i + 1) % 4], 1.0));
        assert ViewportLines(viewport)[..i + 1] == ViewportLines(viewport)[..i] + [ViewportLines(viewport)[i]];
      }
      assert ViewportLines(viewport)[..4] == ViewportLines(viewport);
    }

    /** render: filter, then draw each line and point after its brightness,
        then finish. The frame's input is left as it was. */
    method Render()
      requires Valid() && Drawable(blankingPoint, Out().half)
      requires LinesRenderable(Out(), ClippedLines(lines.Contents(), viewport))
      requires PointsRenderable(Out(), KeptPoints(points.Contents(), viewport))
      modifies clippedLines, clippedLines.elements, clippedPoints, clippedPoints.elements
      modifies rasterizer.device`events
      ensures Valid() && lines.Contents() == old(lines.Contents()) && points.Contents() == old(points.Contents())
      ensures clippedLines.Contents() == ClippedLines(lines.Contents(), viewport)
      ensures clippedPoints.Contents() == KeptPoints(points.Contents(), viewport)
      ensures rasterizer.device.events == old(rasterizer.device.events)
        + EngineFrameEvents(Out(), blankingPoint, clippedLines.Contents(), clippedPoints.Contents())
    {
      FilterLines(lines, clippedLines, viewport);
      FilterPoints(points, clippedPoints, viewport);
      ghost var start := rasterizer.device.events;
      DrawLines();
      ghost var afterLines := rasterizer.device.events;
      DrawPoints();
      ghost var afterPoints := rasterizer.device.events;
      Finish();
      AppendAssoc(start, EngineLinesEvents(Out(), clippedLines.Contents()), PointsEvents(Out(), clippedPoints.Contents()));
      AppendAssoc(start, EngineLinesEvents(Out(), clippedLines.Contents()) + PointsEvents(Out(), clippedPoints.Contents()),
                  EngineFinishEvents(Out(), blankingPoint));
    }

    method DrawLines()
      requires Valid() && LinesRenderable(Out(), clippedLines.Contents())
      modifies rasterizer.device`events
      ensures rasterizer.device.events == old(rasterizer.device.events) + EngineLinesEvents(Out(), clippedLines.Contents())
    {
      ghost var ls := clippedLines.Contents();
      ghost var o := Out();
      ghost var start := rasterizer.device.events;
      for i := 0 to clippedLines.Size()
        invariant clippedLines.Valid() && clippedLines.Contents() == ls
        invariant rasterizer.device.events == start + EngineLinesEvents(o, ls[..i])
      {
        var line := clippedLines.Get(i);
        EngineLinesStep(o, ls, i);
        ghost var prev := EngineLinesEvents(o, ls[..i]);
        DrawLine(line);
        AppendAssoc(start, prev, LineLevel(o, line) + SegmentEvents(o, line.a, line.b));
      }
      assert ls[..clippedLines.Size()] == ls;
    }

    /** One iteration of the line loop. */
    method DrawLine(line: Line)
      requires LineRenderable(Out(), line)
      modifies rasterizer.device`events
      ensures rasterizer.device.events == old(rasterizer.device.events) + (LineLevel(Out(), line) + SegmentEvents(Out(), line.a, line.b))
    {
      if hasBrightnessWriter {
        EngineLevelIsInverted(line.brightness);
        rasterizer.device.WriteLevel(EngineLevel(line.brightness));
      }
      rasterizer.DrawLine(line.a, line.b);
    }

    method DrawPoints()
      requires Valid() && PointsRenderable(Out(), clippedPoints.Contents())
      modifies rasterizer.device`events
      ensures rasterizer.device.events == old(rasterizer.device.events) + PointsEvents(Out(), clippedPoints.Contents())
    {
      ghost var ps := clippedPoints.Contents();
      for i := 0 to clippedPoints.Size()
        invariant rasterizer.device.events == old(rasterizer.device.events) + PointsEvents(Out(), ps[..i])
      {
        PointsEventsStep(Out(), ps, i);
        var point := clippedPoints.Get(i);
        if hasBrightnessWriter {
          EngineLevelIsInverted(point.brightness);
          rasterizer.device.WriteLevel(EngineLevel(point.brightness));
        }
        rasterizer.DrawPoint(Vector2(point.x, point.y));
      }
      assert ps[..clippedPoints.Size()] == ps;
    }

    method Finish()
      requires Drawable(blankingPoint, Out().half)
      modifies rasterizer.device`events
      ensures rasterizer.device.events == old(rasterizer.device.events) + EngineFinishEvents(Out(), blankingPoint)
    {
      if hasBrightnessWriter {
        rasterizer.device.WriteLevel(4095);
      } else {
        rasterizer.DrawPoint(blankingPoint);
      }
    }
  }
}
