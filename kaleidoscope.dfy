/** The Cyrus-Beck clip against a convex polygon (Kaleidoscope.h; the copy
    in extra/Kaleidoscope.cpp is the same code). Each side i of the polygon,
    with vertex v_i and normal n_i, admits the points p with
    n_i . (p - v_i) <= 0. Along the segment p(t) = a + t(b - a) that is
    num + t * den <= 0, with num = n_i . (a - v_i) and den = n_i . (b - a).
    The loop keeps the largest entering parameter tE and the smallest
    exiting parameter tL; `Sweep` says what it holds after k sides, and
    `ClipExact` proves that [tE, tL] is exactly the part of the segment on
    the inner side of every side. */
module CyrusBeck {
  import opened Wrappers
  import opened Geometry

  function MaxValue(a: real, b: real): (r: real)
    ensures r >= a && r >= b && (r == a || r == b)
  {
    if a > b then a else b
  }

  function MinValue(a: real, b: real): (r: real)
    ensures r <= a && r <= b && (r == a || r == b)
  {
    if a < b then a else b
  }

  /** The normal generateNormals computes for side i, before normalising:
      (-dy, dx) of the direction to the next vertex, wrapping at the last. */
  function SideNormal(vs: seq<Vector2>, i: nat): Vector2
    requires i < |vs|
  {
    var d := Sub2(vs[(i + 1) % |vs|], vs[i]);
    Vector2(-d.y, d.x)
  }

  function SideNormals(vs: seq<Vector2>): seq<Vector2>
  {
    seq(|vs|, i requires 0 <= i < |vs| => SideNormal(vs, i))
  }

  /** The normal of a side is perpendicular to it, and has the side's length. */
  lemma SideNormalPerpendicular(vs: seq<Vector2>, i: nat)
    requires i < |vs|
    ensures var d := Sub2(vs[(i + 1) % |vs|], vs[i]);
      Dot2(SideNormal(vs, i), d) == 0.0 && Dot2(SideNormal(vs, i), SideNormal(vs, i)) == Dot2(d, d)
  {
  }

  /** ClipPolygon: the vertices and their side normals, in two arrays of
      vertexCount entries. */
  class ClipPolygon {
    const vertexCount: nat
    const vertices: array<Vector2>
    const normals: array<Vector2>

    ghost predicate Valid()
    {
      vertices.Length == vertexCount && normals.Length == vertexCount && vertices != normals
    }

    /** The initializer-list constructor: the vertices in list order, then
        their normals. */
    constructor (il: seq<Vector2>)
      ensures Valid() && vertices[..] == il && normals[..] == SideNormals(il)
      ensures fresh(vertices) && fresh(normals)
    {
      vertexCount := |il|;
      vertices := new Vector2[|il|](i requires 0 <= i < |il| => il[i]);
      normals := new Vector2[|il|];
      new;
      GenerateNormals();
    }

    method GenerateNormals()
      requires Valid()
      modifies normals
      ensures normals[..] == SideNormals(vertices[..])
    {
      for i := 0 to vertexCount
        invariant forall k :: 0 <= k < i ==> normals[k] == SideNormal(vertices[..], k)
      {
        var dir := Sub2(vertices[(i + 1) % vertexCount], vertices[i]);
        normals[i] := Vector2(-dir.y, dir.x);
      }
    }
  }

  /** What one pass of the loop does with side (num, den): an entering side
      raises tE, an exiting one lowers tL, a parallel one outside rejects. */
  function Step(num: real, den: real, tE: real, tL: real): Option<(real, real)>
  {
    if den != 0.0 then
      var t := num / -den;
      if den < 0.0 then Some((MaxValue(tE, t), tL)) else Some((tE, MinValue(tL, t)))
    else if num > 0.0 then None
    else Some((tE, tL))
  }

  function Num(vs: seq<Vector2>, ns: seq<Vector2>, a: Vector2, i: nat): real
    requires i < |vs| && |ns| == |vs|
  {
    Dot2(ns[i], Sub2(a, vs[i]))
  }

  function Den(ns: seq<Vector2>, a: Vector2, b: Vector2, i: nat): real
    requires i < |ns|
  {
    Dot2(ns[i], Sub2(b, a))
  }

  /** (tE, tL) after the loop has seen sides 0 .. k - 1; None once a side rejected. */
  function Sweep(vs: seq<Vector2>, ns: seq<Vector2>, a: Vector2, b: Vector2, k: nat): Option<(real, real)>
    requires k <= |vs| && |ns| == |vs|
  {
    if k == 0 then Some((0.0, 1.0))
    else
      match Sweep(vs, ns, a, b, k - 1)
      case None => None
      case Some((e, l)) => Step(Num(vs, ns, a, k - 1), Den(ns, a, b, k - 1), e, l)
  }

  /** The parameters clipLine accepts: the sweep over all sides, unless tE > tL. */
  function Params(vs: seq<Vector2>, ns: seq<Vector2>, a: Vector2, b: Vector2): Option<(real, real)>
    requires |ns| == |vs|
  {
    match Sweep(vs, ns, a, b, |vs|)
    case None => None
    case Some((e, l)) => if e > l then None else Some((e, l))
  }

  /** What clipLine leaves in a and b when it accepts. */
  function Clipped(vs: seq<Vector2>, ns: seq<Vector2>, a: Vector2, b: Vector2): Option<(Vector2, Vector2)>
    requires |ns| == |vs|
  {
    match Params(vs, ns, a, b)
    case None => None
    case Some((e, l)) => Some((At(a, b, e), At(a, b, l)))
  }

  /** The point at parameter t is on the inner side of side i. */
  predicate InsideSide(vs: seq<Vector2>, ns: seq<Vector2>, a: Vector2, b: Vector2, i: nat, t: real)
    requires i < |vs| && |ns| == |vs|
  {
    Dot2(ns[i], Sub2(At(a, b, t), vs[i])) <= 0.0
  }

  /** The point at parameter t is on the inner side of sides 0 .. k - 1. */
  predicate InsideUpTo(vs: seq<Vector2>, ns: seq<Vector2>, a: Vector2, b: Vector2, k: nat, t: real)
    requires k <= |vs| && |ns| == |vs|
  {
    k == 0 || (InsideUpTo(vs, ns, a, b, k - 1, t) && InsideSide(vs, ns, a, b, k - 1, t))
  }

  /** Along the segment, side i's test is num + t * den <= 0. */
  lemma SideAlongSegment(vs: seq<Vector2>, ns: seq<Vector2>, a: Vector2, b: Vector2, i: nat, t: real)
    requires i < |vs| && |ns| == |vs|
    ensures InsideSide(vs, ns, a, b, i, t) <==> Num(vs, ns, a, i) + t * Den(ns, a, b, i) <= 0.0
  {
    var n := ns[i];
    var v := vs[i];
    assert Dot2(n, Sub2(At(a, b, t), v))
      == n.x * (a.x - v.x) + n.y * (a.y - v.y) + t * (n.x * (b.x - a.x) + n.y * (b.y - a.y));
  }

  /** t lies in the closed interval [e, l]. */
  predicate InRange(e: real, l: real, t: real) { e <= t <= l }

  /** t meets the test num + t * den <= 0 of one side. */
  predicate Meets(num: real, den: real, t: real) { num + t * den <= 0.0 }

  /** One pass keeps exactly the part of [tE, tL] that meets the side's
      test; it never lowers tE nor raises tL; a rejection means no
      parameter at all meets the test. */
  lemma StepExact(num: real, den: real, e: real, l: real)
    ensures Step(num, den, e, l).Some? ==>
      var s := Step(num, den, e, l).value;
      e <= s.0 && s.1 <= l
      && forall t :: InRange(s.0, s.1, t) <==> InRange(e, l, t) && Meets(num, den, t)
    ensures Step(num, den, e, l).None? ==> forall t :: !Meets(num, den, t)
  {
    if den != 0.0 {
      var r := num / -den;
      assert r * -den == num;
      forall t
        ensures den < 0.0 ==> (Meets(num, den, t) <==> t >= r)
        ensures den > 0.0 ==> (Meets(num, den, t) <==> t <= r)
      {
        assert num + t * den == (t - r) * den;
      }
    }
  }

  /** Sweeping sides 0 .. k - 1 leaves exactly the parameters in [0, 1]
      that meet all their tests; a rejection means none meets them all. */
  lemma {:induction false} SweepExact(vs: seq<Vector2>, ns: seq<Vector2>, a: Vector2, b: Vector2, k: nat)
    requires k <= |vs| && |ns| == |vs|
    ensures Sweep(vs, ns, a, b, k).Some? ==>
      var s := Sweep(vs, ns, a, b, k).value;
      0.0 <= s.0 && s.1 <= 1.0
      && forall t :: InRange(s.0, s.1, t) <==> InRange(0.0, 1.0, t) && InsideUpTo(vs, ns, a, b, k, t)
    ensures Sweep(vs, ns, a, b, k).None? ==> forall t :: !InsideUpTo(vs, ns, a, b, k, t)
  {
    if k > 0 {
      var i := k - 1;
      SweepExact(vs, ns, a, b, i);
      var num, den := Num(vs, ns, a, i), Den(ns, a, b, i);
      if Sweep(vs, ns, a, b, i).Some? {
        var s := Sweep(vs, ns, a, b, i).value;
        assert Sweep(vs, ns, a, b, k) == Step(num, den, s.0, s.1);
        StepExact(num, den, s.0, s.1);
        if Step(num, den, s.0, s.1).Some? {
          var s' := Step(num, den, s.0, s.1).value;
          forall t
            ensures InRange(s'.0, s'.1, t) <==> InRange(0.0, 1.0, t) && InsideUpTo(vs, ns, a, b, k, t)
          {
            SideAlongSegment(vs, ns, a, b, i, t);
          }
        } else {
          forall t ensures !InsideUpTo(vs, ns, a, b, k, t) {
            SideAlongSegment(vs, ns, a, b, i, t);
          }
        }
      }
    }
  }

  /** tE only rises and tL only falls as more sides are seen; a rejection
      is final. */
  lemma {:induction false} SweepMonotone(vs: seq<Vector2>, ns: seq<Vector2>, a: Vector2, b: Vector2, j: nat, k: nat)
    requires j <= k <= |vs| && |ns| == |vs|
    ensures Sweep(vs, ns, a, b, j).None? ==> Sweep(vs, ns, a, b, k).None?
    ensures Sweep(vs, ns, a, b, k).Some? ==>
      Sweep(vs, ns, a, b, j).Some?
      && Sweep(vs, ns, a, b, j).value.0 <= Sweep(vs, ns, a, b, k).value.0
      && Sweep(vs, ns, a, b, k).value.1 <= Sweep(vs, ns, a, b, j).value.1
    decreases k
  {
    if j < k {
      SweepMonotone(vs, ns, a, b, j, k - 1);
      if Sweep(vs, ns, a, b, k - 1).Some? {
        var s := Sweep(vs, ns, a, b, k - 1).value;
        StepExact(Num(vs, ns, a, k - 1), Den(ns, a, b, k - 1), s.0, s.1);
      }
    }
  }

  /** The heart of Cyrus-Beck: on acceptance [tE, tL] is exactly the set of
      parameters whose point is inside every side, and a rejection means no
      point of the segment is. */
  lemma ClipExact(vs: seq<Vector2>, ns: seq<Vector2>, a: Vector2, b: Vector2)
    requires |ns| == |vs|
    ensures Params(vs, ns, a, b).Some? ==>
      var p := Params(vs, ns, a, b).value;
      0.0 <= p.0 <= p.1 <= 1.0
      && forall t :: InRange(p.0, p.1, t) <==> InRange(0.0, 1.0, t) && InsideUpTo(vs, ns, a, b, |vs|, t)
    ensures Params(vs, ns, a, b).None? ==>
      forall t :: !(InRange(0.0, 1.0, t) && InsideUpTo(vs, ns, a, b, |vs|, t))
  {
    SweepExact(vs, ns, a, b, |vs|);
  }

  /** A segment whose two ends are inside every side is returned unchanged. */
  lemma InsideSegmentUnchanged(vs: seq<Vector2>, ns: seq<Vector2>, a: Vector2, b: Vector2)
    requires |ns| == |vs|
    requires InsideUpTo(vs, ns, a, b, |vs|, 0.0) && InsideUpTo(vs, ns, a, b, |vs|, 1.0)
    ensures Params(vs, ns, a, b) == Some((0.0, 1.0))
    ensures Clipped(vs, ns, a, b) == Some((a, b))
  {
    SweepExact(vs, ns, a, b, |vs|);
    assert InRange(0.0, 1.0, 0.0) && InRange(0.0, 1.0, 1.0);
    AtEnds(a, b);
  }

  function Scale2(v: Vector2, k: real): Vector2 { Vector2(k * v.x, k * v.y) }

  lemma DotScaled(n: Vector2, k: real, v: Vector2)
    ensures Dot2(Scale2(n, k), v) == k * Dot2(n, v)
  {
    assert (k * n.x) * v.x == k * (n.x * v.x);
    assert (k * n.y) * v.y == k * (n.y * v.y);
  }

  lemma StepScaled(num: real, den: real, num': real, den': real, k: real, e: real, l: real)
    requires k > 0.0 && num' == k * num && den' == k * den
    ensures Step(num', den', e, l) == Step(num, den, e, l)
  {
    if den != 0.0 {
      assert num' / -den' == num / -den;
    }
  }

  /** Scaling each normal by a positive factor (as normalising does) does
      not change what the sweep computes. */
  lemma {:induction false} SweepScaled(vs: seq<Vector2>, ns: seq<Vector2>, ms: seq<Vector2>, ks: seq<real>,
                                       a: Vector2, b: Vector2, k: nat)
    requires |ns| == |vs| && |ms| == |vs| && |ks| == |vs| && k <= |vs|
    requires forall i :: 0 <= i < |vs| ==> ks[i] > 0.0 && ms[i] == Scale2(ns[i], ks[i])
    ensures Sweep(vs, ms, a, b, k) == Sweep(vs, ns, a, b, k)
    decreases k
  {
    if k > 0 {
      var i := k - 1;
      SweepScaled(vs, ns, ms, ks, a, b, i);
      assert ks[i] > 0.0 && ms[i] == Scale2(ns[i], ks[i]);
      DotScaled(ns[i], ks[i], Sub2(a, vs[i]));
      DotScaled(ns[i], ks[i], Sub2(b, a));
      var num, den := Num(vs, ns, a, i), Den(ns, a, b, i);
      var num', den' := Num(vs, ms, a, i), Den(ms, a, b, i);
      if Sweep(vs, ns, a, b, i).Some? {
        var s := Sweep(vs, ns, a, b, i).value;
        StepScaled(num, den, num', den', ks[i], s.0, s.1);
        assert Sweep(vs, ms, a, b, k) == Step(num', den', s.0, s.1);
        assert Sweep(vs, ns, a, b, k) == Step(num, den, s.0, s.1);
      }
    }
  }

  /** At written the way clipLine computes it: the direction times t. */
  lemma AtScaled(a: Vector2, b: Vector2, t: real)
    ensures At(a, b, t) == Vector2(a.x + Sub2(b, a).x * t, a.y + Sub2(b, a).y * t)
  {
    var d := Sub2(b, a);
    assert d.x * t == t * (b.x - a.x);
    assert d.y * t == t * (b.y - a.y);
  }

  /** Lines 53-63, one side: an entering side raises tE, an exiting one
      lowers tL, a parallel side with the segment outside rejects. */
  method SideStep(num: real, den: real, tE: real, tL: real) returns (inside: bool, tE': real, tL': real)
    ensures inside == Step(num, den, tE, tL).Some?
    ensures inside ==> Step(num, den, tE, tL).value == (tE', tL')
  {
    tE', tL' := tE, tL;
    inside := true;
    if den != 0.0 {
      var t := num / -den;
      if den < 0.0 {
        tE' := MaxValue(tE, t);
      } else {
        tL' := MinValue(tL, t);
      }
    } else if num > 0.0 {
      inside := false;
    }
  }

  /** Lines 70-76: both new ends are taken from the original a along the
      direction d = b - a. */
  method Rewrite(a: Vector2, b: Vector2, d: Vector2, tE: real, tL: real) returns (a': Vector2, b': Vector2)
    requires d == Sub2(b, a)
    ensures a' == At(a, b, tE) && b' == At(a, b, tL)
  {
    var x0 := a.x;
    var y0 := a.y;
    a' := Vector2(x0 + d.x * tE, y0 + d.y * tE);
    b' := Vector2(x0 + d.x * tL, y0 + d.y * tL);
    AtScaled(a, b, tE);
    AtScaled(a, b, tL);
  }

  /** clipLine(a, b, cp): true with a and b rewritten to the inner part, or
      false with a and b untouched. */
  method ClipLine(a: Vector2, b: Vector2, cp: ClipPolygon) returns (accepted: bool, a': Vector2, b': Vector2)
    requires cp.Valid()
    ensures accepted == Clipped(cp.vertices[..], cp.normals[..], a, b).Some?
    ensures accepted ==> (a', b') == Clipped(cp.vertices[..], cp.normals[..], a, b).value
    ensures !accepted ==> a' == a && b' == b
  {
    ghost var vs := cp.vertices[..];
    ghost var ns := cp.normals[..];
    a', b' := a, b;
    var tE, tL := 0.0, 1.0;
    var d := Sub2(b, a);
    for i := 0 to cp.vertexCount
      invariant Sweep(vs, ns, a, b, i) == Some((tE, tL))
    {
      var pe := Sub2(a, cp.vertices[i]);
      var num := Dot2(cp.normals[i], pe);
      var den := Dot2(cp.normals[i], d);
      assert num == Num(vs, ns, a, i) && den == Den(ns, a, b, i);
      assert Sweep(vs, ns, a, b, i + 1) == Step(num, den, tE, tL);
      var inside;
      inside, tE, tL := SideStep(num, den, tE, tL);
      if !inside {
        SweepMonotone(vs, ns, a, b, i + 1, |vs|);
        return false, a, b;
      }
    }
    assert Sweep(vs, ns, a, b, |vs|) == Some((tE, tL));
    if tE > tL {
      return false, a, b;
    }
    assert Clipped(vs, ns, a, b) == Some((At(a, b, tE), At(a, b, tL)));
    a', b' := Rewrite(a, b, d, tE, tL);
    accepted := true;
  }
}
