/** The scanline effect (Voltage/src/ScanlineEffectRenderer.h): for each
    plane height, collect where the visible edges of the mesh cross the
    plane y = height, order the crossings around their centre, project them,
    and join consecutive crossings with lines handed to the engine. */
module Scanlines {
  import opened Geometry
  import opened Arrays
  import opened Meshes
  import opened RealArith

  /** The endpoints' heights lie strictly on opposite sides of the plane. */
  predicate Straddles(ya: real, yb: real, h: real)
  {
    (ya > h && yb < h) || (ya < h && yb > h)
  }

  /** The pushed world point: x and z interpolated at the height, y the
      height itself. Straddling makes the two heights differ, so the
      division is defined. */
  function Crossing(a: Vector4, b: Vector4, h: real): Vector3
    requires Straddles(a.y, b.y, h)
  {
    Vector3(a.x + (h - a.y) * (b.x - a.x) / (b.y - a.y), h, a.z + (h - a.y) * (b.z - a.z) / (b.y - a.y))
  }

  lemma DivFactor(p: real, q: real, d: real)
    requires d != 0.0
    ensures p * q / d == (p / d) * q
  {
    var t := p / d;
    assert t * d == p;
    assert (t * q) * d == (t * d) * q;
  }

  /** An endpoint exactly at the height does not straddle it. */
  lemma EndpointOnPlane(ya: real, yb: real, h: real)
    requires ya == h || yb == h
    ensures !Straddles(ya, yb, h)
  {
  }

  /** The crossing lies strictly inside segment ab, at parameter
      t = (h - a.y) / (b.y - a.y), and its height is h. */
  lemma CrossingOnSegment(a: Vector4, b: Vector4, h: real)
    requires Straddles(a.y, b.y, h)
    ensures var t := (h - a.y) / (b.y - a.y);
      && 0.0 < t < 1.0
      && Crossing(a, b, h) == Vector3(a.x + t * (b.x - a.x), a.y + t * (b.y - a.y), a.z + t * (b.z - a.z))
  {
    var num, den := h - a.y, b.y - a.y;
    var t := num / den;
    assert t * den == num;
    DivFactor(num, b.x - a.x, den);
    DivFactor(num, b.z - a.z, den);
    FractionBetween(num, den);
  }

  /** A ratio of two same-signed reals, the numerator the smaller in size,
      lies strictly between 0 and 1. */
  lemma FractionBetween(num: real, den: real)
    requires 0.0 < num < den || den < num < 0.0
    ensures 0.0 < num / den < 1.0
  {
    var t := num / den;
    assert t * den == num;
    if den > 0.0 {
      assert t > 0.0 by {
        if t <= 0.0 { ScaleMonotone(t, 0.0, den); }
      }
      assert t < 1.0 by {
        if t >= 1.0 { ScaleMonotone(1.0, t, den); }
      }
    } else {
      assert t > 0.0 by {
        if t <= 0.0 { ScaleMonotone(t, 0.0, -den); }
      }
      assert t < 1.0 by {
        if t >= 1.0 { ScaleMonotone(1.0, t, -den); }
      }
    }
  }

  /** Every edge's endpoints are vertices of the mesh. */
  predicate EdgesWithin(es: seq<Edge>, n: nat)
  {
    forall i :: 0 <= i < |es| ==> es[i].a < n && es[i].b < n
  }

  /** Edge e adds a crossing at height h: both endpoints visible, and their
      transformed heights straddle h. */
  predicate Contributes(e: Edge, ts: seq<Vector4>, vis: seq<bool>, h: real)
    requires e.a < |ts| && e.b < |ts| && |vis| == |ts|
  {
    vis[e.a] && vis[e.b] && Straddles(ts[e.a].y, ts[e.b].y, h)
  }

  /** The crossings at height h, in edge order. */
  function Slice(es: seq<Edge>, ts: seq<Vector4>, vis: seq<bool>, h: real): (r: seq<Vector3>)
    requires |vis| == |ts| && EdgesWithin(es, |ts|)
    ensures |r| <= |es|
  {
    if |es| == 0 then []
    else
      var e := es[|es| - 1];
      Slice(es[..|es| - 1], ts, vis, h)
        + (if Contributes(e, ts, vis, h) then [Crossing(ts[e.a], ts[e.b], h)] else [])
  }

  /** Every crossing of a slice lies on the plane, strictly inside the
      segment of a contributing edge. */
  lemma {:induction false} SliceOnPlane(es: seq<Edge>, ts: seq<Vector4>, vis: seq<bool>, h: real)
    requires |vis| == |ts| && EdgesWithin(es, |ts|)
    ensures forall p :: p in Slice(es, ts, vis, h) ==> p.y == h
    ensures forall p :: p in Slice(es, ts, vis, h) ==>
      exists i :: 0 <= i < |es| && Contributes(es[i], ts, vis, h) && p == Crossing(ts[es[i].a], ts[es[i].b], h)
  {
    if |es| > 0 {
      var n := |es| - 1;
      var e := es[n];
      var init := es[..n];
      SliceOnPlane(init, ts, vis, h);
      forall p | p in Slice(es, ts, vis, h)
        ensures p.y == h
        ensures exists i :: 0 <= i < |es| && Contributes(es[i], ts, vis, h) && p == Crossing(ts[es[i].a], ts[es[i].b], h)
      {
        if p in Slice(init, ts, vis, h) {
          var i :| 0 <= i < |init| && Contributes(init[i], ts, vis, h) && p == Crossing(ts[init[i].a], ts[init[i].b], h);
          assert es[i] == init[i];
        } else {
          assert Contributes(e, ts, vis, h) && p == Crossing(ts[e.a], ts[e.b], h);
        }
      }
    }
  }

  /** Nothing visible means nothing crosses. */
  lemma {:induction false} SliceOfHidden(es: seq<Edge>, ts: seq<Vector4>, vis: seq<bool>, h: real)
    requires |vis| == |ts| && EdgesWithin(es, |ts|)
    requires forall v :: 0 <= v < |vis| ==> !vis[v]
    ensures Slice(es, ts, vis, h) == []
  {
    if |es| > 0 {
      SliceOfHidden(es[..|es| - 1], ts, vis, h);
    }
  }

  /** compareFunc: -1, 0 or 1 as the first angle is below, equal to or
      above the second. */
  function Compare(a: real, b: real): (r: int)
    ensures r == -1 <==> a < b
    ensures r == 0 <==> a == b
    ensures r == 1 <==> a > b
  {
    var diff := a - b;
    if diff < 0.0 then -1 else if diff > 0.0 then 1 else 0
  }

  /** The comparison qsort is given is a consistent total order: swapping
      the arguments negates it, and it is transitive. */
  lemma CompareOrders(a: real, b: real, c: real)
    ensures Compare(b, a) == -Compare(a, b)
    ensures Compare(a, b) <= 0 && Compare(b, c) <= 0 ==> Compare(a, c) <= 0
  {
  }

  /** The lines joining consecutive points: n - 1 of them for n >= 2 points,
      none otherwise. */
  function Chained(ps: seq<Vector2>): (r: seq<Line2D>)
    ensures |r| == if |ps| >= 2 then |ps| - 1 else 0
  {
    if |ps| < 2 then [] else seq(|ps| - 1, k requires 0 <= k < |ps| - 1 => Line2D(ps[k], ps[k + 1]))
  }

  /** The chain starts at the first point, ends at the last, and each line
      starts where the one before it ends. */
  lemma ChainedConnects(ps: seq<Vector2>)
    requires |ps| >= 2
    ensures Chained(ps)[0].a == ps[0] && Chained(ps)[|ps| - 2].b == ps[|ps| - 1]
    ensures forall k :: 0 < k < |ps| - 1 ==> Chained(ps)[k].a == Chained(ps)[k - 1].b
  {
  }

  /** The projections of the arranged crossings. */
  function Projected(ws: seq<Vector3>, project: Vector3 -> Vector2): (r: seq<Vector2>)
    ensures |r| == |ws|
  {
    seq(|ws|, k requires 0 <= k < |ws| => project(ws[k]))
  }

  /** What one height adds to the engine: the crossings, ordered by
      `arrange`, projected, and chained. */
  function HeightLines(es: seq<Edge>, ts: seq<Vector4>, vis: seq<bool>, h: real,
                       arrange: seq<Vector3> -> seq<Vector3>, project: Vector3 -> Vector2): seq<Line2D>
    requires |vis| == |ts| && EdgesWithin(es, |ts|)
  {
    Chained(Projected(arrange(Slice(es, ts, vis, h)), project))
  }

  /** Whatever order the sort puts the crossings in, a height with n >= 2
      crossings adds n - 1 lines and one with fewer adds none, and every
      endpoint is the projection of a crossing on the plane. */
  lemma HeightLinesCount(es: seq<Edge>, ts: seq<Vector4>, vis: seq<bool>, h: real,
                         arrange: seq<Vector3> -> seq<Vector3>, project: Vector3 -> Vector2)
    requires |vis| == |ts| && EdgesWithin(es, |ts|)
    requires multiset(arrange(Slice(es, ts, vis, h))) == multiset(Slice(es, ts, vis, h))
    ensures var n := |Slice(es, ts, vis, h)|;
      |HeightLines(es, ts, vis, h, arrange, project)| == if n >= 2 then n - 1 else 0
    ensures forall l :: l in HeightLines(es, ts, vis, h, arrange, project) ==>
      (exists p :: p in Slice(es, ts, vis, h) && p.y == h && l.a == project(p))
      && (exists p :: p in Slice(es, ts, vis, h) && p.y == h && l.b == project(p))
  {
    var s := Slice(es, ts, vis, h);
    var ws := arrange(s);
    Rearranged(s, ws);
    SliceOnPlane(es, ts, vis, h);
    var pj := Projected(ws, project);
    var ls := HeightLines(es, ts, vis, h, arrange, project);
    assert ls == Chained(pj);
    forall l | l in ls
      ensures exists p :: p in s && p.y == h && l.a == project(p)
      ensures exists p :: p in s && p.y == h && l.b == project(p)
    {
      var k :| 0 <= k < |ls| && ls[k] == l;
      assert l == Line2D(pj[k], pj[k + 1]);
      assert ws[k] in s && ws[k + 1] in s;
      assert l.a == project(ws[k]) && l.b == project(ws[k + 1]);
    }
  }

  /** A reordering has the same length and draws its entries from the
      original. */
  lemma Rearranged(s: seq<Vector3>, ws: seq<Vector3>)
    requires multiset(ws) == multiset(s)
    ensures |ws| == |s| && forall k :: 0 <= k < |ws| ==> ws[k] in s
  {
    assert |ws| == |multiset(ws)| == |multiset(s)| == |s|;
    forall k | 0 <= k < |ws|
      ensures ws[k] in s
    {
      assert ws[k] in multiset(ws);
    }
  }

  /** What the whole pass over the heights adds, height by height. */
  function AllHeights(es: seq<Edge>, ts: seq<Vector4>, vis: seq<bool>, hs: seq<real>,
                      arrange: seq<Vector3> -> seq<Vector3>, project: Vector3 -> Vector2): seq<Line2D>
    requires |vis| == |ts| && EdgesWithin(es, |ts|)
  {
    if |hs| == 0 then []
    else
      AllHeights(es, ts, vis, hs[..|hs| - 1], arrange, project)
        + HeightLines(es, ts, vis, hs[|hs| - 1], arrange, project)
  }

  /** The scanline renderer: the engine's line buffer (a Buffer of Line2D, as
      the engine header declares it), the crossing buffer of maxLines
      entries, and the plane heights. */
  class ScanlineEffectRenderer {
    const engineLines: Buffer<Line2D>
    const vertices: Buffer<Vector3>
    const heights: seq<real>

    ghost predicate Valid()
      reads this, engineLines, vertices
    {
      engineLines.Valid() && vertices.Valid()
    }

    constructor (engineLines: Buffer<Line2D>, maxLines: nat, heights: seq<real>)
      requires engineLines.Valid()
      ensures Valid() && this.engineLines == engineLines && this.heights == heights
      ensures vertices.Capacity() == maxLines && fresh(vertices) && fresh(vertices.elements)
    {
      this.engineLines := engineLines;
      vertices := new Buffer<Vector3>(maxLines * 1);
      this.heights := heights;
    }

    /** The first pass at one height: clear the crossing buffer, then push
        the crossing of every visible edge that straddles the height. */
    method Collect(mesh: Mesh, h: real)
      requires Valid() && mesh.Valid()
      requires |Slice(mesh.edges, mesh.transformed[..], mesh.vertexVisible[..], h)| <= vertices.Capacity()
      modifies vertices, vertices.elements
      ensures Valid()
      ensures vertices.Contents() == Slice(mesh.edges, mesh.transformed[..], mesh.vertexVisible[..], h)
    {
      ghost var ts, vis := mesh.transformed[..], mesh.vertexVisible[..];
      ghost var es := mesh.edges;
      MeshEdgesWithin(mesh);
      vertices.Clear();
      for j := 0 to |mesh.edges|
        invariant vertices.Valid() && EdgesWithin(es[..j], |ts|)
        invariant vertices.Contents() == Slice(es[..j], ts, vis, h)
      {
        SlicePrefix(es, ts, vis, h, j);
        SliceGrows(es, ts, vis, h, j + 1);
        var e := mesh.edges[j];
        if mesh.vertexVisible[e.a] && mesh.vertexVisible[e.b] {
          var a, b := mesh.transformed[e.a], mesh.transformed[e.b];
          if (a.y > h && b.y < h) || (a.y < h && b.y > h) {
            vertices.Push(Crossing(a, b, h));
          }
        }
      }
      assert es[..|es|] == es;
    }

    /** The last pass at one height: one line per consecutive pair. */
    method Connect(ps: seq<Vector2>)
      requires Valid() && engineLines.Size() + |Chained(ps)| <= engineLines.Capacity()
      modifies engineLines, engineLines.elements
      ensures Valid() && engineLines.Contents() == old(engineLines.Contents()) + Chained(ps)
    {
      if |ps| >= 2 {
        ghost var start := engineLines.Contents();
        for j := 0 to |ps| - 1
          invariant engineLines.Valid()
          invariant engineLines.Contents() == start + Chained(ps)[..j]
        {
          assert Chained(ps)[..j + 1] == Chained(ps)[..j] + [Line2D(ps[j], ps[j + 1])];
          engineLines.Push(Line2D(ps[j], ps[j + 1]));
        }
        assert Chained(ps)[..|ps| - 1] == Chained(ps);
      }
    }

    /** One height: collect the crossings, let `arrange` order them (the
        centre, the angles around it and the sort, in place), let `project`
        take each to the screen, then connect them. */
    method AddHeight(mesh: Mesh, h: real,
                     arrange: seq<Vector3> -> seq<Vector3>, project: Vector3 -> Vector2)
      requires Valid() && mesh.Valid()
      requires |Slice(mesh.edges, mesh.transformed[..], mesh.vertexVisible[..], h)| <= vertices.Capacity()
      requires engineLines.Size()
        + |HeightLines(mesh.edges, mesh.transformed[..], mesh.vertexVisible[..], h, arrange, project)|
        <= engineLines.Capacity()
      modifies vertices, vertices.elements, engineLines, engineLines.elements
      ensures Valid()
      ensures engineLines.Contents() == old(engineLines.Contents())
        + HeightLines(mesh.edges, mesh.transformed[..], mesh.vertexVisible[..], h, arrange, project)
    {
      Collect(mesh, h);
      var arranged := arrange(vertices.elements[..vertices.Size()]);
      var ps := Projected(arranged, project);
      Connect(ps);
    }

    /** The pass of add(object) over the plane heights, after the mesh's
        visibility flags and transformed vertices are set. */
    method AddMesh(mesh: Mesh, arrange: seq<Vector3> -> seq<Vector3>, project: Vector3 -> Vector2)
      requires Valid() && mesh.Valid()
      requires forall h :: h in heights ==>
        |Slice(mesh.edges, mesh.transformed[..], mesh.vertexVisible[..], h)| <= vertices.Capacity()
      requires engineLines.Size()
        + |AllHeights(mesh.edges, mesh.transformed[..], mesh.vertexVisible[..], heights, arrange, project)|
        <= engineLines.Capacity()
      modifies vertices, vertices.elements, engineLines, engineLines.elements
      ensures Valid()
      ensures engineLines.Contents() == old(engineLines.Contents())
        + AllHeights(mesh.edges, mesh.transformed[..], mesh.vertexVisible[..], heights, arrange, project)
    {
      ghost var ts, vis := mesh.transformed[..], mesh.vertexVisible[..];
      ghost var start := engineLines.Contents();
      MeshEdgesWithin(mesh);
      for i := 0 to |heights|
        invariant Valid()
        invariant engineLines.Contents() == start + AllHeights(mesh.edges, ts, vis, heights[..i], arrange, project)
      {
        AllHeightsStep(mesh.edges, ts, vis, heights, arrange, project, i);
        AddHeight(mesh, heights[i], arrange, project);
      }
      assert heights[..|heights|] == heights;
    }
  }

  /** One more height adds that height's lines, and the lines so far fit
      within those of all heights. */
  lemma AllHeightsStep(es: seq<Edge>, ts: seq<Vector4>, vis: seq<bool>, hs: seq<real>,
                       arrange: seq<Vector3> -> seq<Vector3>, project: Vector3 -> Vector2, i: nat)
    requires |vis| == |ts| && EdgesWithin(es, |ts|) && i < |hs|
    ensures AllHeights(es, ts, vis, hs[..i + 1], arrange, project)
      == AllHeights(es, ts, vis, hs[..i], arrange, project) + HeightLines(es, ts, vis, hs[i], arrange, project)
    ensures |AllHeights(es, ts, vis, hs[..i + 1], arrange, project)| <= |AllHeights(es, ts, vis, hs, arrange, project)|
  {
    assert hs[..i + 1][..i] == hs[..i];
    AllHeightsGrow(es, ts, vis, hs, arrange, project, i + 1);
  }

  lemma {:induction false} AllHeightsGrow(es: seq<Edge>, ts: seq<Vector4>, vis: seq<bool>, hs: seq<real>,
                                          arrange: seq<Vector3> -> seq<Vector3>, project: Vector3 -> Vector2, i: nat)
    requires |vis| == |ts| && EdgesWithin(es, |ts|) && i <= |hs|
    ensures |AllHeights(es, ts, vis, hs[..i], arrange, project)| <= |AllHeights(es, ts, vis, hs, arrange, project)|
    decreases |hs| - i
  {
    if i < |hs| {
      AllHeightsGrow(es, ts, vis, hs, arrange, project, i + 1);
      assert hs[..i + 1][..i] == hs[..i];
    } else {
      assert hs[..i] == hs;
    }
  }

  /** The edges of a well-formed mesh join its vertices. */
  lemma MeshEdgesWithin(mesh: Mesh)
    requires mesh.Valid()
    ensures EdgesWithin(mesh.edges, mesh.transformed.Length)
  {
    forall i | 0 <= i < |mesh.edges|
      ensures mesh.edges[i].a < mesh.transformed.Length && mesh.edges[i].b < mesh.transformed.Length
    {
      assert EdgeInRange(mesh.edges[i], mesh.original.Length, |mesh.faces|);
    }
  }

  /** A longer prefix of the edges has at least as many crossings. */
  lemma {:induction false} SliceGrows(es: seq<Edge>, ts: seq<Vector4>, vis: seq<bool>, h: real, j: nat)
    requires |vis| == |ts| && EdgesWithin(es, |ts|) && j <= |es|
    ensures EdgesWithin(es[..j], |ts|)
    ensures |Slice(es[..j], ts, vis, h)| <= |Slice(es, ts, vis, h)|
    decreases |es| - j
  {
    if j < |es| {
      SliceGrows(es, ts, vis, h, j + 1);
      SlicePrefix(es, ts, vis, h, j);
    } else {
      assert es[..j] == es;
    }
  }

  /** One more edge adds at most its own crossing. */
  lemma SlicePrefix(es: seq<Edge>, ts: seq<Vector4>, vis: seq<bool>, h: real, j: nat)
    requires |vis| == |ts| && EdgesWithin(es, |ts|) && j < |es|
    ensures EdgesWithin(es[..j + 1], |ts|)
    ensures Slice(es[..j + 1], ts, vis, h) == Slice(es[..j], ts, vis, h)
      + (if Contributes(es[j], ts, vis, h) then [Crossing(ts[es[j].a], ts[es[j].b], h)] else [])
  {
    assert es[..j + 1][..j] == es[..j];
  }
}
