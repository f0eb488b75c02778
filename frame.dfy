/** The per-frame work the Renderer (Renderer.cpp) and the older Engine
    (Engine.cpp) share: the viewport outline, the viewport filter for lines
    (the Liang-Barsky clip) and for points (half-open containment). */
module Frames {
  import opened Wrappers
  import opened Geometry
  import opened Arrays
  import opened Clipper

  /** The viewport's corners: top-left, top-right, bottom-right, bottom-left. */
  function Corners(vp: Viewport): seq<Vector2>
  {
    [Vector2(vp.left, vp.top), Vector2(vp.right, vp.top), Vector2(vp.right, vp.bottom), Vector2(vp.left, vp.bottom)]
  }

  /** The four lines addViewport adds: corner i to corner i + 1, wrapping. */
  function ViewportLines(vp: Viewport): (r: seq<Line>)
    ensures |r| == 4
  {
    var c := Corners(vp);
    [Line(c[0], c[1], 1.0), Line(c[1], c[2], 1.0), Line(c[2], c[3], 1.0), Line(c[3], c[0], 1.0)]
  }

  /** The outline is a closed loop at full brightness: each line ends where
      the next begins, the last returning to the first, every line runs along
      one side of the viewport, and together they visit all four corners. */
  lemma ViewportLinesClosed(vp: Viewport)
    ensures forall k :: 0 < k < 4 ==> ViewportLines(vp)[k - 1].b == ViewportLines(vp)[k].a
    ensures ViewportLines(vp)[3].b == ViewportLines(vp)[0].a
    ensures forall i :: 0 <= i < 4 ==> ViewportLines(vp)[i].brightness == 1.0
    ensures forall i :: 0 <= i < 4 ==>
      ViewportLines(vp)[i].a.x == ViewportLines(vp)[i].b.x || ViewportLines(vp)[i].a.y == ViewportLines(vp)[i].b.y
    ensures forall i :: 0 <= i < 4 ==> ViewportLines(vp)[i].a == Corners(vp)[i]
  {
  }

  /** Half-open containment: the right and top edges are outside. */
  predicate Kept(p: Point, vp: Viewport)
  {
    p.x >= vp.left && p.x < vp.right && p.y >= vp.bottom && p.y < vp.top
  }

  /** The points inside the viewport, in their original order. */
  function KeptPoints(ps: seq<Point>, vp: Viewport): (r: seq<Point>)
    ensures |r| <= |ps|
    ensures forall k :: 0 <= k < |r| ==> Kept(r[k], vp) && r[k] in ps
  {
    if |ps| == 0 then []
    else KeptPoints(ps[..|ps| - 1], vp) + (if Kept(ps[|ps| - 1], vp) then [ps[|ps| - 1]] else [])
  }

  /** Filtering commutes with concatenation: order is preserved and each
      point is judged on its own. */
  lemma {:induction false} KeptPointsAppend(ps: seq<Point>, qs: seq<Point>, vp: Viewport)
    ensures KeptPoints(ps + qs, vp) == KeptPoints(ps, vp) + KeptPoints(qs, vp)
  {
    if |qs| > 0 {
      var n := |qs| - 1;
      assert (ps + qs)[..|ps + qs| - 1] == ps + qs[..n];
      KeptPointsAppend(ps, qs[..n], vp);
    } else {
      assert ps + qs == ps;
    }
  }

  /** Every point inside the viewport is kept. */
  lemma {:induction false} KeptPointsComplete(ps: seq<Point>, vp: Viewport, i: nat)
    requires i < |ps| && Kept(ps[i], vp)
    ensures ps[i] in KeptPoints(ps, vp)
  {
    var n := |ps| - 1;
    if i < n {
      assert ps[..n][i] == ps[i];
      KeptPointsComplete(ps[..n], vp, i);
    }
  }

  /** The clipped lines: each line the clip accepts, moved to its visible
      part, with its brightness. */
  function ClippedLines(ls: seq<Line>, vp: Viewport): (r: seq<Line>)
    ensures |r| <= |ls|
    ensures forall k :: 0 <= k < |r| ==> InViewport(r[k].a, vp) && InViewport(r[k].b, vp)
  {
    if |ls| == 0 then []
    else
      var l := ls[|ls| - 1];
      var c := Clipped(l.a, l.b, vp);
      ClippedInViewport(l, vp);
      ClippedLines(ls[..|ls| - 1], vp) + (if c.Some? then [Line(c.value.0, c.value.1, l.brightness)] else [])
  }

  lemma ClippedInViewport(l: Line, vp: Viewport)
    ensures var c := Clipped(l.a, l.b, vp);
      c.Some? ==> InViewport(c.value.0, vp) && InViewport(c.value.1, vp)
  {
    if Clipped(l.a, l.b, vp).Some? {
      ClippedIsVisiblePart(l.a, l.b, vp);
    }
  }

  /** Clipping commutes with concatenation. */
  lemma {:induction false} ClippedLinesAppend(ls: seq<Line>, ms: seq<Line>, vp: Viewport)
    ensures ClippedLines(ls + ms, vp) == ClippedLines(ls, vp) + ClippedLines(ms, vp)
  {
    if |ms| > 0 {
      var n := |ms| - 1;
      assert (ls + ms)[..|ls + ms| - 1] == ls + ms[..n];
      ClippedLinesAppend(ls, ms[..n], vp);
    } else {
      assert ls + ms == ls;
    }
  }

  /** Lines lying entirely inside the viewport pass unchanged, brightness and all. */
  lemma {:induction false} InsideLinesKept(ls: seq<Line>, vp: Viewport)
    requires forall k :: 0 <= k < |ls| ==> InViewport(ls[k].a, vp) && InViewport(ls[k].b, vp)
    ensures ClippedLines(ls, vp) == ls
  {
    if |ls| > 0 {
      var n := |ls| - 1;
      InsideLinesKept(ls[..n], vp);
      InsideSegmentUnchanged(ls[n].a, ls[n].b, vp);
      assert ls[..n] + [ls[n]] == ls;
    }
  }

  /** The line filter of render with the corrected clipLine. */
  method FilterLines(lines: Buffer<Line>, clippedLines: Buffer<Line>, vp: Viewport)
    requires lines.Valid() && clippedLines.Valid() && lines.elements != clippedLines.elements
    requires lines.Size() <= clippedLines.Capacity()
    modifies clippedLines, clippedLines.elements
    ensures clippedLines.Valid() && clippedLines.Contents() == ClippedLines(lines.Contents(), vp)
  {
    ghost var input := lines.Contents();
    clippedLines.Clear();
    for i := 0 to lines.Size()
      invariant clippedLines.Valid() && clippedLines.Contents() == ClippedLines(input[..i], vp)
    {
      assert input[..i + 1][..i] == input[..i];
      var line := lines.Get(i);
      var accepted, a, b := ClipSegment(line.a, line.b, vp);
      if accepted {
        clippedLines.Push(Line(a, b, line.brightness));
      }
    }
    assert input[..lines.Size()] == input;
  }

  /** The line filter of render as written: clipLine reports every line
      rejected, so nothing is kept. */
  method FilterLinesAsWritten(lines: Buffer<Line>, clippedLines: Buffer<Line>, vp: Viewport)
    requires lines.Valid() && clippedLines.Valid()
    modifies clippedLines
    ensures clippedLines.Valid() && clippedLines.Contents() == []
  {
    clippedLines.Clear();
    for i := 0 to lines.Size()
      invariant clippedLines.Valid() && clippedLines.Contents() == []
    {
      var line := lines.Get(i);
      var kept, a, b := ClipLine(line.a, line.b, vp);
      if kept {
        // the push of the accepted line: never reached
        assert false;
      }
    }
  }

  /** The point filter of render. */
  method FilterPoints(points: Buffer<Point>, clippedPoints: Buffer<Point>, vp: Viewport)
    requires points.Valid() && clippedPoints.Valid() && points.elements != clippedPoints.elements
    requires points.Size() <= clippedPoints.Capacity()
    modifies clippedPoints, clippedPoints.elements
    ensures clippedPoints.Valid() && clippedPoints.Contents() == KeptPoints(points.Contents(), vp)
  {
    ghost var input := points.Contents();
    clippedPoints.Clear();
    for i := 0 to points.Size()
      invariant clippedPoints.Valid() && clippedPoints.Contents() == KeptPoints(input[..i], vp)
    {
      assert input[..i + 1][..i] == input[..i];
      var point := points.Get(i);
      if point.x >= vp.left && point.x < vp.right && point.y >= vp.bottom && point.y < vp.top {
        clippedPoints.Push(point);
      }
    }
    assert input[..points.Size()] == input;
  }
}
