/** The Bresenham rasterizer (Rasterizer.h, Rasterizer.cpp). Its only effect
    is a sequence of position writes to the one writer it is bound to.

    The points each routine visits are given in closed form: along the major
    axis the k-th point is k steps from the start, and along the minor axis it
    has moved `Offset(k, du, dv)` steps, the rounded-to-nearest value of
    k * du / dv. `DrawLineLow` and `DrawLineHigh` are proved to emit exactly
    those points, with the decision variable D tied to the closed form. */
module Rasterizing {
  import opened Geometry
  import opened Writers
  import opened DacScale
  import opened RealArith

  function Abs(n: int): nat { if n < 0 then -n else n }

  function Max(a: nat, b: nat): nat { if a < b then b else a }

  /** scaleValueHalf: `(uint32_t)(maxValue * 0.5)`, the floor of half the maximum. */
  function HalfScale(maxValue: nat): (h: nat)
    ensures 2 * h <= maxValue <= 2 * h + 1
  {
    (maxValue as real * 0.5).Floor
  }

  /** The float-to-`uint32_t` cast in transform is defined only for a
      non-negative value. */
  predicate Transformable(value: real, half: nat)
  {
    value * half as real + half as real >= 0.0
  }

  /** transform: `(uint32_t)(value * half + half)`. */
  function Transform(value: real, half: nat): nat
    requires Transformable(value, half)
  {
    (value * half as real + half as real).Floor
  }

  /** -1, 0 and 1 go to 0, half and 2 * half. */
  lemma TransformLandmarks(half: nat)
    ensures Transform(-1.0, half) == 0
    ensures Transform(0.0, half) == half
    ensures Transform(1.0, half) == 2 * half
  {
  }

  /** On [-1, 1] transform is defined, non-decreasing, and stays within
      [0, 2 * half], hence within the writer's range. */
  lemma TransformRange(v: real, w: real, half: nat, maxValue: nat)
    requires -1.0 <= v <= w <= 1.0 && half == HalfScale(maxValue)
    ensures Transformable(v, half) && Transformable(w, half)
    ensures Transform(v, half) <= Transform(w, half) <= 2 * half <= maxValue
  {
    var h := half as real;
    ScaleMonotone(-1.0, v, h);
    ScaleMonotone(v, w, h);
    ScaleMonotone(w, 1.0, h);
    FloorMonotone(v * h + h, w * h + h);
    assert (2 * half) as real == 2.0 * h;
    FloorAtMost(w * h + h, 2 * half);
  }

  /** How far the minor coordinate has moved after k major steps, for a line
      that advances du minor units over dv major units. */
  function Offset(k: nat, du: nat, dv: nat): nat
  {
    if dv == 0 then 0 else (2 * du * k + dv - 1) / (2 * dv)
  }

  lemma DivUnique(n: int, d: int, q: int)
    requires d > 0 && d * q <= n < d * (q + 1)
    ensures n / d == q
  {
    var r := n / d;
    assert d * r <= n < d * (r + 1);
    MulMonotone(d, r + 1, q);
    MulMonotone(d, q + 1, r);
  }

  lemma MulMonotone(d: int, a: int, b: int)
    requires d > 0
    ensures a <= b ==> d * a <= d * b
  {
    if a <= b {
      assert d * b == d * a + d * (b - a);
    }
  }

  lemma DivBounds(n: int, d: int)
    requires d > 0
    ensures d * (n / d) <= n < d * (n / d + 1)
  {
  }

  /** Bresenham's decision variable after k steps:
      D = 2 du (k + 1) - dv - 2 dv Offset(k). */
  function Decision(k: nat, du: nat, dv: nat): int
  {
    2 * du * (k + 1) - dv - 2 * dv * Offset(k, du, dv)
  }

  /** Offset grows by one exactly when the decision variable is positive, and
      the decision variable then moves by 2 (du - dv), otherwise by 2 du. */
  lemma DecisionStep(k: nat, du: nat, dv: nat)
    requires du <= dv && dv > 0
    ensures Decision(k, du, dv) > 0 ==>
      Offset(k + 1, du, dv) == Offset(k, du, dv) + 1
      && Decision(k + 1, du, dv) == Decision(k, du, dv) + 2 * (du - dv)
    ensures Decision(k, du, dv) <= 0 ==>
      Offset(k + 1, du, dv) == Offset(k, du, dv)
      && Decision(k + 1, du, dv) == Decision(k, du, dv) + 2 * du
  {
    var o := Offset(k, du, dv);
    var n := 2 * du * k + dv - 1;
    DivBounds(n, 2 * dv);
    var n' := 2 * du * (k + 1) + dv - 1;
    assert n' == n + 2 * du;
    if Decision(k, du, dv) > 0 {
      DivUnique(n', 2 * dv, o + 1);
    } else {
      DivUnique(n', 2 * dv, o);
    }
  }

  /** The starting decision value is 2 du - dv, as drawLineLow initialises it. */
  lemma DecisionStart(du: nat, dv: nat)
    requires dv > 0
    ensures Offset(0, du, dv) == 0 && Decision(0, du, dv) == 2 * du - dv
  {
    DivUnique(dv - 1, 2 * dv, 0);
  }

  /** The minor coordinate is the one nearest to the ideal line:
      |dv * Offset(k) - du * k| <= dv / 2. */
  lemma NearestIdeal(k: nat, du: nat, dv: nat)
    requires dv > 0
    ensures -(dv as int) <= 2 * dv * Offset(k, du, dv) - 2 * du * k <= dv
  {
    DivBounds(2 * du * k + dv - 1, 2 * dv);
  }

  /** Within the line the minor coordinate never exceeds du. */
  lemma OffsetAtMost(k: nat, du: nat, dv: nat)
    requires k <= dv
    ensures Offset(k, du, dv) <= du
  {
    if dv > 0 {
      var d := 2 * dv;
      var n := 2 * du * k + dv - 1;
      var q := n / d;
      assert Offset(k, du, dv) == q;
      DivBounds(n, d);
      assert 2 * du * k <= 2 * du * dv by {
        if du > 0 {
          MulMonotone(2 * du, k, dv);
        }
      }
      assert n < d * (du + 1);
      if q > du {
        MulMonotone(d, du + 1, q);
        assert false;
      }
    }
  }

  /** At the far end the minor coordinate has moved exactly du. */
  lemma OffsetEnd(du: nat, dv: nat)
    requires dv > 0
    ensures Offset(dv, du, dv) == du
  {
    DivUnique(2 * du * dv + dv - 1, 2 * dv, du);
  }

  /** o steps from `from` in the direction of `to`. */
  function Toward(from: int, to: int, o: nat): int
  {
    if to < from then from - o else from + o
  }

  /** The minor coordinate after k major steps of a line from `from` to
      `to` whose major axis spans dv. */
  function Minor(from: int, to: int, dv: nat, k: nat): int
  {
    Toward(from, to, Offset(k, Abs(to - from), dv))
  }

  /** The points drawLineLow visits: x runs from x0 up to x1 - 1, y moves
      from y0 towards y1. */
  function LowPoints(x0: int, y0: int, x1: int, y1: int): (ps: seq<(int, int)>)
    requires x0 <= x1
    ensures |ps| == x1 - x0
  {
    var dv := x1 - x0;
    var du := Abs(y1 - y0);
    seq(dv, k requires 0 <= k < dv => (x0 + k, Minor(y0, y1, dv, k)))
  }

  /** The points drawLineHigh visits: y runs from y0 up to y1 - 1, x moves
      from x0 towards x1. */
  function HighPoints(x0: int, y0: int, x1: int, y1: int): (ps: seq<(int, int)>)
    requires y0 <= y1
    ensures |ps| == y1 - y0
  {
    var dv := y1 - y0;
    var du := Abs(x1 - x0);
    seq(dv, k requires 0 <= k < dv => (Minor(x0, x1, dv, k), y0 + k))
  }

  /** The points drawLine visits for device endpoints (x0, y0) and (x1, y1):
      the shallow or the steep routine, always run along increasing major axis. */
  function LinePoints(x0: int, y0: int, x1: int, y1: int): seq<(int, int)>
  {
    if Abs(y1 - y0) < Abs(x1 - x0) then
      if x0 > x1 then LowPoints(x1, y1, x0, y0) else LowPoints(x0, y0, x1, y1)
    else
      if y0 > y1 then HighPoints(x1, y1, x0, y0) else HighPoints(x0, y0, x1, y1)
  }

  /** The writes for a sequence of device points: each coordinate shifted by bits. */
  function Emit(ps: seq<(int, int)>, bits: nat): (es: seq<Event>)
    ensures |es| == |ps|
  {
    seq(|ps|, i requires 0 <= i < |ps| => Position(Shift(ps[i].0, bits), Shift(ps[i].1, bits)))
  }

  lemma EmitAppend(ps: seq<(int, int)>, p: (int, int), bits: nat)
    ensures Emit(ps + [p], bits) == Emit(ps, bits) + [Position(Shift(p.0, bits), Shift(p.1, bits))]
  {
  }

  /** drawLine(a, b) and drawLine(b, a) visit the same points in the same order. */
  lemma LinePointsSymmetric(x0: int, y0: int, x1: int, y1: int)
    ensures LinePoints(x0, y0, x1, y1) == LinePoints(x1, y1, x0, y0)
  {
    if Abs(y1 - y0) >= Abs(x1 - x0) && y0 == y1 {
      assert x0 == x1;
    }
  }

  /** One write per unit of the longer axis; none when both endpoints map to
      the same device point. */
  lemma LinePointsCount(x0: int, y0: int, x1: int, y1: int)
    ensures |LinePoints(x0, y0, x1, y1)| == Max(Abs(x1 - x0), Abs(y1 - y0))
    ensures x0 == x1 && y0 == y1 ==> LinePoints(x0, y0, x1, y1) == []
  {
  }

  /** Within the line the offset grows by at most one per step. */
  lemma OffsetSteps(k: nat, du: nat, dv: nat)
    requires du <= dv && k < dv
    ensures Offset(k + 1, du, dv) == Offset(k, du, dv) || Offset(k + 1, du, dv) == Offset(k, du, dv) + 1
  {
    DecisionStep(k, du, dv);
  }

  /** Up to du steps toward `to` stay between from and to. */
  lemma TowardBetween(from: int, to: int, o: nat)
    requires o <= Abs(to - from)
    ensures from <= Toward(from, to, o) <= to || to <= Toward(from, to, o) <= from
  {
  }

  /** One more step toward `to` moves by at most one. */
  lemma TowardStep(from: int, to: int, o: nat, o': nat)
    requires o' == o || o' == o + 1
    ensures Abs(Toward(from, to, o') - Toward(from, to, o)) <= 1
  {
  }

  /** The minor coordinate of a line starts at `from`, stays between its
      ends, changes by at most one per step, and ends within one of `to`. */
  lemma MinorShape(from: int, to: int, dv: nat)
    requires dv > 0 && Abs(to - from) <= dv
    ensures Minor(from, to, dv, 0) == from
    ensures forall k: nat :: k < dv ==>
      from <= Minor(from, to, dv, k) <= to || to <= Minor(from, to, dv, k) <= from
    ensures forall k: nat :: k + 1 < dv ==> Abs(Minor(from, to, dv, k + 1) - Minor(from, to, dv, k)) <= 1
    ensures Abs(to - Minor(from, to, dv, dv - 1)) <= 1
  {
    var du := Abs(to - from);
    DecisionStart(du, dv);
    forall k: nat | k < dv
      ensures from <= Minor(from, to, dv, k) <= to || to <= Minor(from, to, dv, k) <= from
    {
      OffsetAtMost(k, du, dv);
      TowardBetween(from, to, Offset(k, du, dv));
    }
    forall k: nat | k + 1 < dv
      ensures Abs(Minor(from, to, dv, k + 1) - Minor(from, to, dv, k)) <= 1
    {
      OffsetSteps(k, du, dv);
      TowardStep(from, to, Offset(k, du, dv), Offset(k + 1, du, dv));
    }
    OffsetSteps(dv - 1, du, dv);
    OffsetEnd(du, dv);
    TowardStep(from, to, Offset(dv - 1, du, dv), Offset(dv, du, dv));
  }

  /** The shallow routine starts at its first endpoint, moves one step along
      x and at most one along y each time, stays between y0 and y1, and its
      last point is within one step of (x1, y1). */
  lemma LowPointsShape(x0: int, y0: int, x1: int, y1: int)
    requires x0 < x1 && Abs(y1 - y0) <= x1 - x0
    ensures var ps := LowPoints(x0, y0, x1, y1);
      ps[0] == (x0, y0)
      && (forall i :: 0 <= i < |ps| ==> (y0 <= ps[i].1 <= y1 || y1 <= ps[i].1 <= y0))
      && (forall i :: 0 < i < |ps| ==> ps[i].0 == ps[i - 1].0 + 1 && Abs(ps[i].1 - ps[i - 1].1) <= 1)
      && Abs(y1 - ps[|ps| - 1].1) <= 1
  {
    var ps := LowPoints(x0, y0, x1, y1);
    MinorShape(y0, y1, x1 - x0);
    forall i | 0 < i < |ps|
      ensures Abs(ps[i].1 - ps[i - 1].1) <= 1
    {
      assert ps[i].1 == Minor(y0, y1, x1 - x0, (i - 1) + 1);
    }
  }

  /** The steep routine mirrors the shallow one: one step along y and at most
      one along x each time, with x staying between x0 and x1. */
  lemma HighPointsShape(x0: int, y0: int, x1: int, y1: int)
    requires y0 < y1 && Abs(x1 - x0) <= y1 - y0
    ensures var ps := HighPoints(x0, y0, x1, y1);
      ps[0] == (x0, y0)
      && (forall i :: 0 <= i < |ps| ==> (x0 <= ps[i].0 <= x1 || x1 <= ps[i].0 <= x0))
      && (forall i :: 0 < i < |ps| ==> ps[i].1 == ps[i - 1].1 + 1 && Abs(ps[i].0 - ps[i - 1].0) <= 1)
      && Abs(x1 - ps[|ps| - 1].0) <= 1
  {
    var ps := HighPoints(x0, y0, x1, y1);
    MinorShape(x0, x1, y1 - y0);
    forall i | 0 < i < |ps|
      ensures Abs(ps[i].0 - ps[i - 1].0) <= 1
    {
      assert ps[i].0 == Minor(x0, x1, y1 - y0, (i - 1) + 1);
    }
  }

  /** The position writer's view of the rasterizer: all state is fixed at
      construction, and drawing only appends writes to `device`. */
  class Rasterizer {
    const device: Device
    const scaleValueHalf: nat
    const scaleBits: nat

    /** The half scale comes from the writer's maximum; the shift from the
        requested resolution, which must not exceed the 12-bit DAC range. */
    constructor (device: Device, resolutionBits: nat)
      requires resolutionBits <= MaxResolutionBits
      ensures this.device == device && scaleValueHalf == HalfScale(device.positionMax)
      ensures scaleBits == ScaleBits(resolutionBits)
    {
      this.device := device;
      scaleValueHalf := HalfScale(device.positionMax);
      scaleBits := ScaleBits(resolutionBits);
    }

    /** drawPoint: one write of the transformed, shifted coordinates. */
    method DrawPoint(point: Vector2)
      requires Transformable(point.x, scaleValueHalf) && Transformable(point.y, scaleValueHalf)
      modifies device`events
      ensures device.events == old(device.events) + Emit([(Transform(point.x, scaleValueHalf), Transform(point.y, scaleValueHalf))], scaleBits)
    {
      device.WritePosition(Shift(Transform(point.x, scaleValueHalf), scaleBits), Shift(Transform(point.y, scaleValueHalf), scaleBits));
    }

    /** drawLine: transform both endpoints and dispatch so that the major
        coordinate increases. */
    method DrawLine(a: Vector2, b: Vector2)
      requires Transformable(a.x, scaleValueHalf) && Transformable(a.y, scaleValueHalf)
      requires Transformable(b.x, scaleValueHalf) && Transformable(b.y, scaleValueHalf)
      modifies device`events
      ensures device.events == old(device.events) + Emit(LinePoints(
        Transform(a.x, scaleValueHalf), Transform(a.y, scaleValueHalf),
        Transform(b.x, scaleValueHalf), Transform(b.y, scaleValueHalf)), scaleBits)
    {
      var x0: int := Transform(a.x, scaleValueHalf);
      var y0: int := Transform(a.y, scaleValueHalf);
      var x1: int := Transform(b.x, scaleValueHalf);
      var y1: int := Transform(b.y, scaleValueHalf);
      if Abs(y1 - y0) < Abs(x1 - x0) {
        if x0 > x1 {
          DrawLineLow(x1, y1, x0, y0);
        } else {
          DrawLineLow(x0, y0, x1, y1);
        }
      } else {
        if y0 > y1 {
          DrawLineHigh(x1, y1, x0, y0);
        } else {
          DrawLineHigh(x0, y0, x1, y1);
        }
      }
    }

    /** drawLineLow: the shallow case, one write per x from x0 to x1 - 1. */
    method DrawLineLow(x0: int, y0: int, x1: int, y1: int)
      requires x0 <= x1 && Abs(y1 - y0) <= x1 - x0
      modifies device`events
      ensures device.events == old(device.events) + Emit(LowPoints(x0, y0, x1, y1), scaleBits)
    {
      var dx := x1 - x0;
      var dy := y1 - y0;
      var yi := 1;
      if dy < 0 {
        yi := -1;
        dy := -dy;
      }
      var D := 2 * dy - dx;
      var y := y0;
      ghost var ps := LowPoints(x0, y0, x1, y1);
      if dx > 0 {
        DecisionStart(dy, dx);
      }
      for x := x0 to x1
        invariant y == Toward(y0, y1, Offset(x - x0, dy, dx))
        invariant D == Decision(x - x0, dy, dx)
        invariant device.events == old(device.events) + Emit(ps[..x - x0], scaleBits)
      {
        device.WritePosition(Shift(x, scaleBits), Shift(y, scaleBits));
        assert ps[..x - x0 + 1] == ps[..x - x0] + [(x, y)];
        EmitAppend(ps[..x - x0], (x, y), scaleBits);
        DecisionStep(x - x0, dy, dx);
        if D > 0 {
          y := y + yi;
          D := D + (2 * (dy - dx));
        } else {
          D := D + 2 * dy;
        }
      }
      assert ps[..x1 - x0] == ps;
    }

    /** drawLineHigh: the steep case, one write per y from y0 to y1 - 1. */
    method DrawLineHigh(x0: int, y0: int, x1: int, y1: int)
      requires y0 <= y1 && Abs(x1 - x0) <= y1 - y0
      modifies device`events
      ensures device.events == old(device.events) + Emit(HighPoints(x0, y0, x1, y1), scaleBits)
    {
      var dx := x1 - x0;
      var dy := y1 - y0;
      var xi := 1;
      if dx < 0 {
        xi := -1;
        dx := -dx;
      }
      var D := 2 * dx - dy;
      var x := x0;
      ghost var ps := HighPoints(x0, y0, x1, y1);
      if dy > 0 {
        DecisionStart(dx, dy);
      }
      for y := y0 to y1
        invariant x == Toward(x0, x1, Offset(y - y0, dx, dy))
        invariant D == Decision(y - y0, dx, dy)
        invariant device.events == old(device.events) + Emit(ps[..y - y0], scaleBits)
      {
        device.WritePosition(Shift(x, scaleBits), Shift(y, scaleBits));
        assert ps[..y - y0 + 1] == ps[..y - y0] + [(x, y)];
        EmitAppend(ps[..y - y0], (x, y), scaleBits);
        DecisionStep(y - y0, dx, dy);
        if D > 0 {
          x := x + xi;
          D := D + (2 * (dx - dy));
        } else {
          D := D + 2 * dx;
        }
      }
      assert ps[..y1 - y0] == ps;
    }
  }
}
