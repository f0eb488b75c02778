/** The kaleidoscope effect (extra/Kaleidoscope.h and extra/Kaleidoscope.cpp):
    clip every input line to the triangle (0,0), (1,1), (1,0) with the
    Cyrus-Beck clip, then mirror the kept lines three times, each mirror
    appending the reflected copies, last line first, to the buffer it reads. */
module Kaleidoscopes {
  import opened Geometry
  import opened Wrappers
  import opened Arrays
  import CyrusBeck

  /** Matrix2 of extra/Kaleidoscope.h, entries m0, m1, m2, m3. */
  datatype Matrix2 = Matrix2(m0: real, m1: real, m2: real, m3: real)

  /** Vector2Transform: (m0 x + m2 y, m1 x + m3 y). */
  function Vector2Transform(v: Vector2, m: Matrix2): Vector2
  {
    Vector2(m.m0 * v.x + m.m2 * v.y, m.m1 * v.x + m.m3 * v.y)
  }

  const Identity2: Matrix2 := Matrix2(1.0, 0.0, 0.0, 1.0)

  /** mirrorHorizontal: x negated. */
  const MirrorHorizontal: Matrix2 := Matrix2(-1.0, 0.0, 0.0, 1.0)

  /** mirrorVertical: y negated. */
  const MirrorVertical: Matrix2 := Matrix2(1.0, 0.0, 0.0, -1.0)

  /** mirror45Degrees, {cos(pi/2), sin(pi/2), sin(pi/2), -cos(pi/2)}, with
      exact cosine and sine: the reflection in the diagonal x = y. */
  const Mirror45: Matrix2 := Matrix2(0.0, 1.0, 1.0, 0.0)

  /** The identity leaves points alone; the three mirrors of process negate
      x, negate y and swap the coordinates. */
  lemma MirrorsAct(v: Vector2)
    ensures Vector2Transform(v, Identity2) == v
    ensures Vector2Transform(v, MirrorHorizontal) == Vector2(-v.x, v.y)
    ensures Vector2Transform(v, MirrorVertical) == Vector2(v.x, -v.y)
    ensures Vector2Transform(v, Mirror45) == Vector2(v.y, v.x)
  {
  }

  /** A matrix that undoes itself: transforming twice gives every point back. */
  ghost predicate Involutive(m: Matrix2)
  {
    forall v :: Vector2Transform(Vector2Transform(v, m), m) == v
  }

  /** A matrix whose square, entry by entry, is the identity is involutive. */
  lemma SquareIdentityInvolutive(m: Matrix2)
    requires m.m0 * m.m0 + m.m2 * m.m1 == 1.0 && m.m0 * m.m2 + m.m2 * m.m3 == 0.0
    requires m.m1 * m.m0 + m.m3 * m.m1 == 0.0 && m.m1 * m.m2 + m.m3 * m.m3 == 1.0
    ensures Involutive(m)
  {
    forall v
      ensures Vector2Transform(Vector2Transform(v, m), m) == v
    {
      var w := Vector2Transform(v, m);
      assert w.x == m.m0 * v.x + m.m2 * v.y && w.y == m.m1 * v.x + m.m3 * v.y;
      assert m.m0 * w.x + m.m2 * w.y == (m.m0 * m.m0 + m.m2 * m.m1) * v.x + (m.m0 * m.m2 + m.m2 * m.m3) * v.y;
      assert m.m1 * w.x + m.m3 * w.y == (m.m1 * m.m0 + m.m3 * m.m1) * v.x + (m.m1 * m.m2 + m.m3 * m.m3) * v.y;
    }
  }

  /** The three mirrors of process each undo themselves. */
  lemma MirrorsInvolutive()
    ensures Involutive(MirrorHorizontal) && Involutive(MirrorVertical) && Involutive(Mirror45)
  {
    forall v
      ensures Vector2Transform(Vector2Transform(v, MirrorHorizontal), MirrorHorizontal) == v
      ensures Vector2Transform(Vector2Transform(v, MirrorVertical), MirrorVertical) == v
      ensures Vector2Transform(Vector2Transform(v, Mirror45), Mirror45) == v
    {
      MirrorsAct(v);
      MirrorsAct(Vector2Transform(v, MirrorHorizontal));
      MirrorsAct(Vector2Transform(v, MirrorVertical));
      MirrorsAct(Vector2Transform(v, Mirror45));
    }
  }

  function Add2(v: Vector2, w: Vector2): Vector2 { Vector2(v.x + w.x, v.y + w.y) }

  function Scale2(v: Vector2, k: real): Vector2 { Vector2(k * v.x, k * v.y) }

  /** Vector2Transform is linear in the point. */
  lemma TransformLinear(v: Vector2, w: Vector2, k: real, m: Matrix2)
    ensures Vector2Transform(Add2(v, w), m) == Add2(Vector2Transform(v, m), Vector2Transform(w, m))
    ensures Vector2Transform(Scale2(v, k), m) == Scale2(Vector2Transform(v, m), k)
  {
    assert m.m0 * (v.x + w.x) == m.m0 * v.x + m.m0 * w.x;
    assert m.m2 * (v.y + w.y) == m.m2 * v.y + m.m2 * w.y;
    assert m.m1 * (v.x + w.x) == m.m1 * v.x + m.m1 * w.x;
    assert m.m3 * (v.y + w.y) == m.m3 * v.y + m.m3 * w.y;
    assert m.m0 * (k * v.x) + m.m2 * (k * v.y) == k * (m.m0 * v.x + m.m2 * v.y);
    assert m.m1 * (k * v.x) + m.m3 * (k * v.y) == k * (m.m1 * v.x + m.m3 * v.y);
  }

  /** Both endpoints of a line through the matrix. */
  function TransformLine(l: Line2D, m: Matrix2): Line2D
  {
    Line2D(Vector2Transform(l.a, m), Vector2Transform(l.b, m))
  }

  /** The copies mirror appends: the images of the lines, last line first. */
  function Reflected(ls: seq<Line2D>, m: Matrix2): (r: seq<Line2D>)
    ensures |r| == |ls|
  {
    seq(|ls|, k requires 0 <= k < |ls| => TransformLine(ls[|ls| - 1 - k], m))
  }

  /** The buffer after mirror(lines, m). */
  function Mirrored(ls: seq<Line2D>, m: Matrix2): seq<Line2D>
  {
    ls + Reflected(ls, m)
  }

  /** mirror doubles the buffer, keeps its first half, and puts at n + k the
      image of entry n - 1 - k. */
  lemma MirroredShape(ls: seq<Line2D>, m: Matrix2)
    ensures |Mirrored(ls, m)| == 2 * |ls| && Mirrored(ls, m)[..|ls|] == ls
    ensures forall k :: |ls| <= k < 2 * |ls| ==> Mirrored(ls, m)[k] == TransformLine(ls[2 * |ls| - 1 - k], m)
  {
  }

  /** Under an involutive matrix the mirrored buffer reads the same from both
      ends up to the matrix: entry 2n - 1 - k is the image of entry k, and
      entry k the image of entry 2n - 1 - k. */
  lemma MirroredSymmetric(ls: seq<Line2D>, m: Matrix2, k: nat)
    requires Involutive(m) && k < 2 * |ls|
    ensures |Mirrored(ls, m)| == 2 * |ls|
    ensures Mirrored(ls, m)[2 * |ls| - 1 - k] == TransformLine(Mirrored(ls, m)[k], m)
  {
    var n := |ls|;
    var ms := Mirrored(ls, m);
    if k >= n {
      var j := k - n;
      assert ms[k] == TransformLine(ls[n - 1 - j], m);
      assert ms[2 * n - 1 - k] == ls[n - 1 - j];
      assert Vector2Transform(Vector2Transform(ls[n - 1 - j].a, m), m) == ls[n - 1 - j].a;
      assert Vector2Transform(Vector2Transform(ls[n - 1 - j].b, m), m) == ls[n - 1 - j].b;
    } else {
      assert ms[2 * n - 1 - k] == ms[n + (n - 1 - k)];
    }
  }

  /** mirror: for i from size - 1 down to 0, push the image of entry i. The
      entries read all lie below the original size, so the loop sees the
      original lines only. */
  method Mirror(lines: Buffer<Line2D>, matrix: Matrix2)
    requires lines.Valid() && 2 * lines.Size() <= lines.Capacity()
    modifies lines`index, lines.elements
    ensures lines.Valid() && lines.Contents() == Mirrored(old(lines.Contents()), matrix)
  {
    ghost var ls := lines.Contents();
    var n := lines.Size();
    var i: int := n - 1;
    while i >= 0
      invariant -1 <= i < n
      invariant lines.Valid() && lines.Contents() == ls + Reflected(ls, matrix)[..n - 1 - i]
    {
      var l := lines.Get(i);
      assert l == ls[i] by {
        assert lines.Contents()[i] == ls[i];
      }
      ghost var done := Reflected(ls, matrix)[..n - 1 - i];
      assert Reflected(ls, matrix)[..n - i] == done + [TransformLine(l, matrix)];
      lines.Push(TransformLine(l, matrix));
      i := i - 1;
    }
    assert Reflected(ls, matrix)[..n] == Reflected(ls, matrix);
  }

  /** The clip polygon of process. */
  const Triangle: seq<Vector2> := [Vector2(0.0, 0.0), Vector2(1.0, 1.0), Vector2(1.0, 0.0)]

  /** What clipping to the polygon vs (side normals ns) leaves of one line:
      the clipped line, or nothing. */
  function KeptLine(vs: seq<Vector2>, ns: seq<Vector2>, l: Line2D): (r: seq<Line2D>)
    requires |ns| == |vs|
    ensures |r| <= 1
    ensures |r| == 1 <==> CyrusBeck.Clipped(vs, ns, l.a, l.b).Some?
  {
    match CyrusBeck.Clipped(vs, ns, l.a, l.b)
    case None => []
    case Some((a, b)) => [Line2D(a, b)]
  }

  /** The lines of ls the clip to vs accepts, clipped, in input order. */
  function KeptBy(vs: seq<Vector2>, ns: seq<Vector2>, ls: seq<Line2D>): (r: seq<Line2D>)
    requires |ns| == |vs|
    ensures |r| <= |ls|
  {
    if |ls| == 0 then [] else KeptBy(vs, ns, ls[..|ls| - 1]) + KeptLine(vs, ns, ls[|ls| - 1])
  }

  /** The lines process keeps: those the triangle clip accepts. */
  function Kept(ls: seq<Line2D>): seq<Line2D>
  {
    KeptBy(Triangle, CyrusBeck.SideNormals(Triangle), ls)
  }

  /** Filtering a longer prefix keeps at least as many lines. */
  lemma {:induction false} KeptPrefix(vs: seq<Vector2>, ns: seq<Vector2>, ls: seq<Line2D>, i: nat)
    requires |ns| == |vs| && i <= |ls|
    ensures |KeptBy(vs, ns, ls[..i])| <= |KeptBy(vs, ns, ls)|
    decreases |ls| - i
  {
    if i < |ls| {
      KeptPrefix(vs, ns, ls, i + 1);
      assert ls[..i + 1][..i] == ls[..i];
    } else {
      assert ls[..i] == ls;
    }
  }

  /** One more line of input adds what the clip leaves of that line. */
  lemma KeptStep(vs: seq<Vector2>, ns: seq<Vector2>, ls: seq<Line2D>, i: nat)
    requires |ns| == |vs| && i < |ls|
    ensures KeptBy(vs, ns, ls[..i + 1]) == KeptBy(vs, ns, ls[..i]) + KeptLine(vs, ns, ls[i])
    ensures |KeptBy(vs, ns, ls[..i + 1])| <= |KeptBy(vs, ns, ls)|
  {
    KeptPrefix(vs, ns, ls, i + 1);
    assert ls[..i + 1][..i] == ls[..i];
  }

  /** The whole of process: the kept lines, mirrored in the diagonal, then
      horizontally, then vertically. */
  function Processed(ls: seq<Line2D>): seq<Line2D>
  {
    Mirrored(Mirrored(Mirrored(Kept(ls), Mirror45), MirrorHorizontal), MirrorVertical)
  }

  /** Eight lines out per kept line in: the original and its seven images. */
  lemma ProcessedSize(ls: seq<Line2D>)
    ensures |Processed(ls)| == 8 * |Kept(ls)|
  {
    var c := Kept(ls);
    MirroredShape(c, Mirror45);
    MirroredShape(Mirrored(c, Mirror45), MirrorHorizontal);
    MirroredShape(Mirrored(Mirrored(c, Mirror45), MirrorHorizontal), MirrorVertical);
  }

  /** The kept lines come first in the output, unchanged. */
  lemma ProcessedStartsWithKept(ls: seq<Line2D>)
    ensures |Kept(ls)| <= |Processed(ls)| && Processed(ls)[..|Kept(ls)|] == Kept(ls)
  {
    var c := Kept(ls);
    var m1 := Mirrored(c, Mirror45);
    var m2 := Mirrored(m1, MirrorHorizontal);
    MirroredShape(c, Mirror45);
    MirroredShape(m1, MirrorHorizontal);
    MirroredShape(m2, MirrorVertical);
    assert Processed(ls)[..|c|] == m2[..|m1|][..|c|];
  }

  /** Kaleidoscope: its own line buffer of maxLines entries. The Engine
      reference it holds is never used by process and is not modelled. */
  class Kaleidoscope {
    const lines: Buffer<Line2D>

    constructor (maxLines: nat)
      ensures lines.Valid() && lines.Capacity() == maxLines && lines.Contents() == []
      ensures fresh(lines) && fresh(lines.elements)
    {
      lines := new Buffer<Line2D>(maxLines);
    }

    /** process: clear, keep the clipped lines, mirror three times, and
        return the own buffer. The mirrors need room for 8 lines per kept
        line; the input buffer is another buffer, read only. */
    method Process(buffer: Buffer<Line2D>) returns (r: Buffer<Line2D>)
      requires lines.Valid() && buffer.Valid() && buffer.elements != lines.elements
      requires 8 * |Kept(buffer.Contents())| <= lines.Capacity()
      modifies lines, lines.elements
      ensures r == lines && lines.Valid()
      ensures lines.Contents() == Processed(buffer.Contents())
    {
      var polygon := new CyrusBeck.ClipPolygon(Triangle);
      KeepClipped(buffer, polygon);
      ghost var c := lines.Contents();
      assert c == Kept(buffer.Contents());
      MirroredShape(c, Mirror45);
      MirroredShape(Mirrored(c, Mirror45), MirrorHorizontal);
      Mirror(lines, Mirror45);
      Mirror(lines, MirrorHorizontal);
      Mirror(lines, MirrorVertical);
      r := lines;
    }

    /** The first half of process: clear, then push each line clipLine accepts. */
    method KeepClipped(buffer: Buffer<Line2D>, polygon: CyrusBeck.ClipPolygon)
      requires lines.Valid() && buffer.Valid() && buffer.elements != lines.elements
      requires polygon.Valid()
      requires |KeptBy(polygon.vertices[..], polygon.normals[..], buffer.Contents())| <= lines.Capacity()
      modifies lines, lines.elements
      ensures lines.Valid()
      ensures lines.Contents() == KeptBy(polygon.vertices[..], polygon.normals[..], buffer.Contents())
    {
      lines.Clear();
      ghost var input := buffer.Contents();
      ghost var vs, ns := polygon.vertices[..], polygon.normals[..];
      for i := 0 to buffer.Size()
        invariant lines.Valid() && lines.Contents() == KeptBy(vs, ns, input[..i])
        invariant buffer.Contents() == input
      {
        var l := buffer.Get(i);
        KeptStep(vs, ns, input, i);
        KeepLine(l, polygon);
      }
      assert input[..buffer.Size()] == input;
    }

    /** One step of the loop of process: push the line if clipLine keeps it. */
    method KeepLine(l: Line2D, polygon: CyrusBeck.ClipPolygon)
      requires polygon.Valid()
      requires lines.Valid()
      requires |lines.Contents()| + |KeptLine(polygon.vertices[..], polygon.normals[..], l)| <= lines.Capacity()
      modifies lines`index, lines.elements
      ensures lines.Valid()
      ensures lines.Contents() == old(lines.Contents()) + KeptLine(polygon.vertices[..], polygon.normals[..], l)
    {
      var accepted, a, b := CyrusBeck.ClipLine(l.a, l.b, polygon);
      if accepted {
        lines.Push(Line2D(a, b));
      }
    }
  }
}
