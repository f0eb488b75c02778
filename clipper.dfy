/** The 2D viewport clip (Clipper.h): Liang-Barsky. Each of the four tests
    stands for one constraint p*t <= q on the segment parameter t; the
    parameter interval [u1, u2] starts as [0, 1] and is narrowed by each test.

    `Narrow` and `ClipParams` say what the tests compute; `ClipParamsExact`
    proves that the interval they leave is exactly the visible part of the
    segment. The methods `ClipTest`, `ClipSegment` and `ClipLine` follow
    Clipper.h's control flow and are tied to those functions. */
module Clipper {
  import opened Geometry
  import opened Wrappers

  datatype Viewport = Viewport(left: real, right: real, top: real, bottom: real)

  /** Closed containment in the viewport rectangle. */
  predicate InViewport(p: Vector2, vp: Viewport)
  {
    vp.left <= p.x <= vp.right && vp.bottom <= p.y <= vp.top
  }

  /** Parameter t names a point of segment ab that lies in the viewport. */
  predicate Visible(a: Vector2, b: Vector2, vp: Viewport, t: real)
  {
    0.0 <= t <= 1.0 && InViewport(At(a, b, t), vp)
  }

  predicate Between(lo: real, hi: real, t: real)
  {
    lo <= t <= hi
  }

  /** The constraint one clipTest call stands for. */
  predicate Admits(p: real, q: real, t: real)
  {
    p * t <= q
  }

  /** What clipTest does to the interval [u1, u2]: None when it rejects. */
  function Narrow(p: real, q: real, u1: real, u2: real): Option<(real, real)>
  {
    if p < 0.0 then
      var r := q / p;
      if r > u2 then None else Some((if r > u1 then r else u1, u2))
    else if p > 0.0 then
      var r := q / p;
      if r < u1 then None else Some((u1, if r < u2 then r else u2))
    else if q < 0.0 then None
    else Some((u1, u2))
  }

  /** A test never lowers u1 nor raises u2, and keeps u1 <= u2; each bound it
      leaves is either the old bound or the point where p*t = q is tight. */
  lemma NarrowMonotone(p: real, q: real, u1: real, u2: real)
    requires Narrow(p, q, u1, u2).Some?
    ensures var n := Narrow(p, q, u1, u2).value;
      u1 <= n.0 && n.1 <= u2 && (u1 <= u2 ==> n.0 <= n.1)
      && (n.0 == u1 || p * n.0 == q) && (n.1 == u2 || p * n.1 == q)
  {
  }

  /** Each bound a test leaves is the old bound or the ratio q / p. */
  lemma NarrowBounds(p: real, q: real, u1: real, u2: real)
    requires Narrow(p, q, u1, u2).Some?
    ensures var n := Narrow(p, q, u1, u2).value;
      (n.0 == u1 || (p != 0.0 && n.0 == q / p)) && (n.1 == u2 || (p != 0.0 && n.1 == q / p))
  {
  }

  /** The interval a test leaves is exactly the old interval cut by its
      constraint; a rejection means that cut is empty. */
  lemma NarrowExact(p: real, q: real, u1: real, u2: real)
    ensures Narrow(p, q, u1, u2).Some? ==>
      forall t :: Between(Narrow(p, q, u1, u2).value.0, Narrow(p, q, u1, u2).value.1, t)
        <==> Between(u1, u2, t) && Admits(p, q, t)
    ensures Narrow(p, q, u1, u2).None? ==>
      forall t :: !(Between(u1, u2, t) && Admits(p, q, t))
  {
    forall t
      ensures p < 0.0 ==> (Admits(p, q, t) <==> t >= q / p)
      ensures p > 0.0 ==> (Admits(p, q, t) <==> t <= q / p)
    {
      if p < 0.0 {
        assert p * (q / p) == q;
      } else if p > 0.0 {
        assert p * (q / p) == q;
      }
    }
  }

  /** The (p, q) of the k-th test of clipLine: left, right, bottom, top. */
  function Constraint(a: Vector2, b: Vector2, vp: Viewport, k: nat): (real, real)
    requires k < 4
  {
    if k == 0 then (-(b.x - a.x), a.x - vp.left)
    else if k == 1 then (b.x - a.x, vp.right - a.x)
    else if k == 2 then (-(b.y - a.y), a.y - vp.bottom)
    else (b.y - a.y, vp.top - a.y)
  }

  /** Parameter t meets the constraints of tests k .. 3. */
  predicate AdmitsFrom(a: Vector2, b: Vector2, vp: Viewport, k: nat, t: real)
    requires k <= 4
    decreases 4 - k
  {
    k == 4 || (Admits(Constraint(a, b, vp, k).0, Constraint(a, b, vp, k).1, t) && AdmitsFrom(a, b, vp, k + 1, t))
  }

  /** Tests k .. 3 applied in order to [u1, u2], stopping at the first rejection. */
  function ClipFrom(a: Vector2, b: Vector2, vp: Viewport, k: nat, u1: real, u2: real): Option<(real, real)>
    requires k <= 4
    decreases 4 - k
  {
    if k == 4 then Some((u1, u2))
    else
      var c := Constraint(a, b, vp, k);
      match Narrow(c.0, c.1, u1, u2)
      case None => None
      case Some((n1, n2)) => ClipFrom(a, b, vp, k + 1, n1, n2)
  }

  /** One step of the fold, given the outcome of test k. */
  lemma ClipFromStep(a: Vector2, b: Vector2, vp: Viewport, k: nat, u1: real, u2: real, ok: bool, n1: real, n2: real)
    requires k < 4
    requires ok == Narrow(Constraint(a, b, vp, k).0, Constraint(a, b, vp, k).1, u1, u2).Some?
    requires ok ==> (n1, n2) == Narrow(Constraint(a, b, vp, k).0, Constraint(a, b, vp, k).1, u1, u2).value
    ensures ClipFrom(a, b, vp, k, u1, u2) == if ok then ClipFrom(a, b, vp, k + 1, n1, n2) else None
  {
  }

  /** The four tests of clipLine in order, starting from [0, 1]. */
  function ClipParams(a: Vector2, b: Vector2, vp: Viewport): Option<(real, real)>
  {
    ClipFrom(a, b, vp, 0, 0.0, 1.0)
  }

  /** A point of the segment is in the viewport iff it meets all four constraints. */
  lemma VisibleIsFourConstraints(a: Vector2, b: Vector2, vp: Viewport, t: real)
    ensures Visible(a, b, vp, t) <==> Between(0.0, 1.0, t) && AdmitsFrom(a, b, vp, 0, t)
  {
    var dx, dy := b.x - a.x, b.y - a.y;
    var sx, sy := t * dx, t * dy;
    assert At(a, b, t) == Vector2(a.x + sx, a.y + sy);
    assert -dx * t == -sx && dx * t == sx;
    assert -dy * t == -sy && dy * t == sy;
    assert AdmitsFrom(a, b, vp, 0, t) <==>
      Admits(-dx, a.x - vp.left, t) && Admits(dx, vp.right - a.x, t)
      && Admits(-dy, a.y - vp.bottom, t) && Admits(dy, vp.top - a.y, t);
  }

  /** Folding tests k .. 3 leaves exactly the part of [u1, u2] that meets
      their constraints, and rejects exactly when that part is empty. */
  lemma {:induction false} ClipFromExact(a: Vector2, b: Vector2, vp: Viewport, k: nat, u1: real, u2: real)
    requires k <= 4
    ensures ClipFrom(a, b, vp, k, u1, u2).Some? ==>
      var n := ClipFrom(a, b, vp, k, u1, u2).value;
      u1 <= n.0 && n.1 <= u2 && (u1 <= u2 ==> n.0 <= n.1)
      && forall t :: Between(n.0, n.1, t) <==> Between(u1, u2, t) && AdmitsFrom(a, b, vp, k, t)
    ensures ClipFrom(a, b, vp, k, u1, u2).None? ==>
      forall t :: !(Between(u1, u2, t) && AdmitsFrom(a, b, vp, k, t))
    decreases 4 - k
  {
    if k < 4 {
      var c := Constraint(a, b, vp, k);
      NarrowExact(c.0, c.1, u1, u2);
      if Narrow(c.0, c.1, u1, u2).Some? {
        var n := Narrow(c.0, c.1, u1, u2).value;
        NarrowMonotone(c.0, c.1, u1, u2);
        ClipFromExact(a, b, vp, k + 1, n.0, n.1);
      }
    }
  }

  /** The heart of Liang-Barsky: the interval left after the four tests is
      exactly the set of parameters whose point lies in the viewport, and a
      rejection means no point of the segment does. */
  lemma ClipParamsExact(a: Vector2, b: Vector2, vp: Viewport)
    ensures ClipParams(a, b, vp).Some? ==>
      var u := ClipParams(a, b, vp).value;
      0.0 <= u.0 <= u.1 <= 1.0 && forall t :: Between(u.0, u.1, t) <==> Visible(a, b, vp, t)
    ensures ClipParams(a, b, vp).None? ==> forall t :: !Visible(a, b, vp, t)
  {
    forall t ensures Visible(a, b, vp, t) <==> Between(0.0, 1.0, t) && AdmitsFrom(a, b, vp, 0, t)
    {
      VisibleIsFourConstraints(a, b, vp, t);
    }
    ClipFromExact(a, b, vp, 0, 0.0, 1.0);
  }

  /** The rewritten endpoints clipLine produces from the interval [u1, u2]:
      b moves to the exit parameter (only if it is below 1), then a moves to
      the entry parameter (only if it is above 0), both from the original a. */
  function ClipEnds(a: Vector2, b: Vector2, u1: real, u2: real): (Vector2, Vector2)
  {
    var dx := b.x - a.x;
    var dy := b.y - a.y;
    var b' := if u2 < 1.0 then Vector2(a.x + u2 * dx, a.y + u2 * dy) else b;
    var a' := if u1 > 0.0 then Vector2(a.x + u1 * dx, a.y + u1 * dy) else a;
    (a', b')
  }

  /** What clipLine leaves in a and b when the four tests pass; None when one rejects. */
  function Clipped(a: Vector2, b: Vector2, vp: Viewport): Option<(Vector2, Vector2)>
  {
    match ClipParams(a, b, vp)
    case None => None
    case Some((u1, u2)) => Some(ClipEnds(a, b, u1, u2))
  }

  /** Within [0, 1] the rewrites are just the points at the two parameters. */
  lemma ClipEndsAt(a: Vector2, b: Vector2, u1: real, u2: real)
    requires 0.0 <= u1 && u2 <= 1.0
    ensures ClipEnds(a, b, u1, u2) == (At(a, b, u1), At(a, b, u2))
  {
    AtEnds(a, b);
  }

  /** The entry and exit parameters name visible points of the segment. */
  lemma ParamsVisible(a: Vector2, b: Vector2, vp: Viewport)
    requires ClipParams(a, b, vp).Some?
    ensures var u := ClipParams(a, b, vp).value;
      0.0 <= u.0 <= u.1 <= 1.0 && Visible(a, b, vp, u.0) && Visible(a, b, vp, u.1)
  {
    ClipParamsExact(a, b, vp);
    var u := ClipParams(a, b, vp).value;
    assert Between(u.0, u.1, u.0) && Between(u.0, u.1, u.1);
  }

  /** The clipped segment is the visible part of the original one: its ends
      are the points at the entry and exit parameters, and it lies in the viewport. */
  lemma ClippedIsVisiblePart(a: Vector2, b: Vector2, vp: Viewport)
    requires Clipped(a, b, vp).Some?
    ensures var u := ClipParams(a, b, vp).value;
      Clipped(a, b, vp).value == (At(a, b, u.0), At(a, b, u.1))
    ensures InViewport(Clipped(a, b, vp).value.0, vp) && InViewport(Clipped(a, b, vp).value.1, vp)
  {
    ParamsVisible(a, b, vp);
    var u := ClipParams(a, b, vp).value;
    ClipEndsAt(a, b, u.0, u.1);
  }

  /** A segment entirely inside the viewport is kept unchanged. */
  lemma InsideSegmentUnchanged(a: Vector2, b: Vector2, vp: Viewport)
    requires InViewport(a, vp) && InViewport(b, vp)
    ensures Clipped(a, b, vp) == Some((a, b))
  {
    ClipParamsExact(a, b, vp);
    AtEnds(a, b);
    assert Visible(a, b, vp, 0.0) && Visible(a, b, vp, 1.0);
    var u := ClipParams(a, b, vp).value;
    assert Between(u.0, u.1, 0.0) && Between(u.0, u.1, 1.0);
  }

  /** Both endpoints beyond the same boundary line. */
  predicate OutsideSameBoundary(a: Vector2, b: Vector2, vp: Viewport)
  {
    (a.x < vp.left && b.x < vp.left) || (a.x > vp.right && b.x > vp.right)
    || (a.y < vp.bottom && b.y < vp.bottom) || (a.y > vp.top && b.y > vp.top)
  }

  lemma MulNonPositive(x: real, y: real)
    requires x >= 0.0 && y < 0.0
    ensures x * y <= 0.0 && (x > 0.0 ==> x * y < 0.0)
  {
  }

  /** A point between two values below a bound is below it too. */
  lemma ConvexBelow(u: real, v: real, bound: real, t: real)
    requires u < bound && v < bound && 0.0 <= t <= 1.0
    ensures u + t * (v - u) < bound
  {
    assert u + t * (v - u) - bound == (1.0 - t) * (u - bound) + t * (v - bound);
    MulNonPositive(1.0 - t, u - bound);
    MulNonPositive(t, v - bound);
  }

  /** No point of a segment with both ends beyond one boundary is visible. */
  lemma OutsideNotVisible(a: Vector2, b: Vector2, vp: Viewport, t: real)
    requires OutsideSameBoundary(a, b, vp)
    ensures !Visible(a, b, vp, t)
  {
    if 0.0 <= t <= 1.0 {
      if a.x < vp.left && b.x < vp.left {
        ConvexBelow(a.x, b.x, vp.left, t);
      } else if a.x > vp.right && b.x > vp.right {
        ConvexBelow(-a.x, -b.x, -vp.right, t);
      } else if a.y < vp.bottom && b.y < vp.bottom {
        ConvexBelow(a.y, b.y, vp.bottom, t);
      } else {
        ConvexBelow(-a.y, -b.y, -vp.top, t);
      }
    }
  }

  /** A segment with both endpoints beyond one boundary is rejected. */
  lemma OutsideSegmentRejected(a: Vector2, b: Vector2, vp: Viewport)
    requires OutsideSameBoundary(a, b, vp)
    ensures Clipped(a, b, vp).None?
  {
    if ClipParams(a, b, vp).Some? {
      ParamsVisible(a, b, vp);
      OutsideNotVisible(a, b, vp, ClipParams(a, b, vp).value.0);
    }
  }

  /** On one of the four boundary lines of the viewport. */
  predicate OnBoundary(p: Vector2, vp: Viewport)
  {
    p.x == vp.left || p.x == vp.right || p.y == vp.bottom || p.y == vp.top
  }

  /** Parameter t makes the constraint of test k tight. */
  predicate Tight(a: Vector2, b: Vector2, vp: Viewport, k: nat, t: real)
  {
    k < 4 && Constraint(a, b, vp, k).0 != 0.0 && t == Constraint(a, b, vp, k).1 / Constraint(a, b, vp, k).0
  }

  /** Parameter t makes the constraint of some test tight. */
  predicate TightAny(a: Vector2, b: Vector2, vp: Viewport, t: real)
  {
    Tight(a, b, vp, 0, t) || Tight(a, b, vp, 1, t) || Tight(a, b, vp, 2, t) || Tight(a, b, vp, 3, t)
  }

  /** Parameter t is the start of the segment or tight for one of the tests. */
  predicate EntryOk(a: Vector2, b: Vector2, vp: Viewport, t: real)
  {
    t == 0.0 || TightAny(a, b, vp, t)
  }

  /** Parameter t is the end of the segment or tight for one of the tests. */
  predicate ExitOk(a: Vector2, b: Vector2, vp: Viewport, t: real)
  {
    t == 1.0 || TightAny(a, b, vp, t)
  }

  /** Where a test's constraint is tight, the point lies on that test's boundary line. */
  lemma TightOnBoundary(a: Vector2, b: Vector2, vp: Viewport, k: nat, t: real)
    requires Tight(a, b, vp, k, t)
    ensures OnBoundary(At(a, b, t), vp)
  {
    var c := Constraint(a, b, vp, k);
    assert c.0 * t == c.1;
    if k == 0 {
      assert At(a, b, t).x == vp.left;
    } else if k == 1 {
      assert At(a, b, t).x == vp.right;
    } else if k == 2 {
      assert At(a, b, t).y == vp.bottom;
    } else {
      assert At(a, b, t).y == vp.top;
    }
  }

  lemma TightIsAny(a: Vector2, b: Vector2, vp: Viewport, k: nat, t: real)
    requires Tight(a, b, vp, k, t)
    ensures TightAny(a, b, vp, t)
  {
  }

  /** Within a fold, each bound stays at an end of the segment or tight for a
      test; r is the interval the fold leaves. */
  lemma {:induction false} ClipFromEnds(a: Vector2, b: Vector2, vp: Viewport, k: nat, u1: real, u2: real)
    returns (r: (real, real))
    requires k <= 4 && ClipFrom(a, b, vp, k, u1, u2).Some?
    requires EntryOk(a, b, vp, u1) && ExitOk(a, b, vp, u2)
    ensures ClipFrom(a, b, vp, k, u1, u2) == Some(r)
    ensures EntryOk(a, b, vp, r.0) && ExitOk(a, b, vp, r.1)
    decreases 4 - k
  {
    if k == 4 {
      r := (u1, u2);
    } else {
      var c := Constraint(a, b, vp, k);
      var n := Narrow(c.0, c.1, u1, u2).value;
      NarrowBounds(c.0, c.1, u1, u2);
      if n.0 != u1 {
        TightIsAny(a, b, vp, k, n.0);
      }
      if n.1 != u2 {
        TightIsAny(a, b, vp, k, n.1);
      }
      r := ClipFromEnds(a, b, vp, k + 1, n.0, n.1);
    }
  }

  /** Every bound the four tests leave is an end of the segment or tight for one test. */
  lemma ParamsTight(a: Vector2, b: Vector2, vp: Viewport)
    requires ClipParams(a, b, vp).Some?
    ensures EntryOk(a, b, vp, ClipParams(a, b, vp).value.0)
    ensures ExitOk(a, b, vp, ClipParams(a, b, vp).value.1)
  {
    var r := ClipFromEnds(a, b, vp, 0, 0.0, 1.0);
  }

  /** Each end of a clipped segment is an original endpoint or lies on the
      viewport boundary. */
  lemma ClippedEndsOnBoundary(a: Vector2, b: Vector2, vp: Viewport)
    requires Clipped(a, b, vp).Some?
    ensures var c := Clipped(a, b, vp).value;
      (c.0 == a || OnBoundary(c.0, vp)) && (c.1 == b || OnBoundary(c.1, vp))
  {
    ParamsVisible(a, b, vp);
    ParamsTight(a, b, vp);
    var u := ClipParams(a, b, vp).value;
    ClipEndsAt(a, b, u.0, u.1);
    AtEnds(a, b);
    forall k: nat | k < 4 && (Tight(a, b, vp, k, u.0) || Tight(a, b, vp, k, u.1))
      ensures Tight(a, b, vp, k, u.0) ==> OnBoundary(At(a, b, u.0), vp)
      ensures Tight(a, b, vp, k, u.1) ==> OnBoundary(At(a, b, u.1), vp)
    {
      if Tight(a, b, vp, k, u.0) {
        TightOnBoundary(a, b, vp, k, u.0);
      }
      if Tight(a, b, vp, k, u.1) {
        TightOnBoundary(a, b, vp, k, u.1);
      }
    }
  }

  /** clipTest: narrows [u1, u2] by the constraint p*t <= q, through its
      reference parameters (here in- and out-parameters). */
  method ClipTest(p: real, q: real, u1: real, u2: real) returns (value: bool, u1': real, u2': real)
    ensures value == Narrow(p, q, u1, u2).Some?
    ensures value ==> (u1', u2') == Narrow(p, q, u1, u2).value
    ensures !value ==> u1' == u1 && u2' == u2
    ensures u1 <= u1' && u2' <= u2
  {
    u1', u2' := u1, u2;
    value := true;
    if p < 0.0 {
      var r := q / p;
      if r > u2 {
        value := false;
      } else if r > u1 {
        u1' := r;
      }
    } else if p > 0.0 {
      var r := q / p;
      if r < u1 {
        value := false;
      } else if r < u2 {
        u2' := r;
      }
    } else if q < 0.0 {
      value := false;
    }
  }

  /** The endpoint rewrites at the end of clipLine: b first, then a, both
      measured from the original a. */
  method MoveEnds(a: Vector2, b: Vector2, u1: real, u2: real) returns (a': Vector2, b': Vector2)
    ensures a' == ClipEnds(a, b, u1, u2).0 && b' == ClipEnds(a, b, u1, u2).1
  {
    a', b' := a, b;
    var dx := b.x - a.x;
    var dy := b.y - a.y;
    if u2 < 1.0 {
      b' := Vector2(a.x + u2 * dx, a.y + u2 * dy);
    }
    if u1 > 0.0 {
      a' := Vector2(a.x + u1 * dx, a.y + u1 * dy);
    }
  }

  /** clipLine with the acceptance it evidently intends: true exactly when the
      four tests pass, with a and b rewritten to the visible part. */
  method ClipSegment(a: Vector2, b: Vector2, viewport: Viewport) returns (accepted: bool, a': Vector2, b': Vector2)
    ensures accepted == Clipped(a, b, viewport).Some?
    ensures accepted ==> (a', b') == Clipped(a, b, viewport).value
    ensures !accepted ==> a' == a && b' == b
  {
    a', b' := a, b;
    accepted := false;
    var u1, u2 := 0.0, 1.0;
    var dx := b.x - a.x;
    var dy: real;
    var ok: bool;
    ok, u1, u2 := ClipTest(-dx, a.x - viewport.left, u1, u2);
    ClipFromStep(a, b, viewport, 0, 0.0, 1.0, ok, u1, u2);
    if ok {
      ghost var v1, v2 := u1, u2;
      ok, u1, u2 := ClipTest(dx, viewport.right - a.x, u1, u2);
      ClipFromStep(a, b, viewport, 1, v1, v2, ok, u1, u2);
      if ok {
        v1, v2 := u1, u2;
        dy := b.y - a.y;
        ok, u1, u2 := ClipTest(-dy, a.y - viewport.bottom, u1, u2);
        ClipFromStep(a, b, viewport, 2, v1, v2, ok, u1, u2);
        if ok {
          v1, v2 := u1, u2;
          ok, u1, u2 := ClipTest(dy, viewport.top - a.y, u1, u2);
          ClipFromStep(a, b, viewport, 3, v1, v2, ok, u1, u2);
          if ok {
            assert Clipped(a, b, viewport) == Some(ClipEnds(a, b, u1, u2));
            a', b' := MoveEnds(a, b, u1, u2);
            accepted := true;
          } else {
            assert Clipped(a, b, viewport).None?;
          }
        } else {
          assert Clipped(a, b, viewport).None?;
        }
      } else {
        assert Clipped(a, b, viewport).None?;
      }
    } else {
      assert Clipped(a, b, viewport).None?;
    }
  }

  /** clipLine as written: the same tests and rewrites, but `false` is
      returned on every path, accepted segments included. */
  method ClipLine(a: Vector2, b: Vector2, viewport: Viewport) returns (result: bool, a': Vector2, b': Vector2)
    ensures !result
    ensures Clipped(a, b, viewport).Some? ==> (a', b') == Clipped(a, b, viewport).value
    ensures Clipped(a, b, viewport).None? ==> a' == a && b' == b
  {
    var _, a1, b1 := ClipSegment(a, b, viewport);
    a', b' := a1, b1;
    result := false;
  }

  /** The discrepancy: a segment well inside the default square viewport,
      which clipLine should return unchanged and accepted, is returned
      unchanged but reported rejected. */
  method InsideSegmentReportedRejected() returns (result: bool, a': Vector2, b': Vector2)
    ensures !result && a' == Vector2(-0.5, 0.0) && b' == Vector2(0.5, 0.0)
    ensures Clipped(Vector2(-0.5, 0.0), Vector2(0.5, 0.0), Viewport(-1.0, 1.0, 1.0, -1.0)) == Some((a', b'))
  {
    var vp := Viewport(-1.0, 1.0, 1.0, -1.0);
    InsideSegmentUnchanged(Vector2(-0.5, 0.0), Vector2(0.5, 0.0), vp);
    result, a', b' := ClipLine(Vector2(-0.5, 0.0), Vector2(0.5, 0.0), vp);
  }

  /** Example: (-2,0)-(2,0) against the unit square becomes (-1,0)-(1,0). */
  method ClipExample() returns (accepted: bool, a': Vector2, b': Vector2)
    ensures accepted && a' == Vector2(-1.0, 0.0) && b' == Vector2(1.0, 0.0)
  {
    accepted, a', b' := ClipSegment(Vector2(-2.0, 0.0), Vector2(2.0, 0.0), Viewport(-1.0, 1.0, 1.0, -1.0));
  }
}
