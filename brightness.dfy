/** Brightness transforms (Renderer.h) and the older Engine's fixed one
    (Engine.cpp): a brightness in [0, 1] becomes a level for the
    brightness writer. The casts to `uint32_t` are floors, defined only for
    a non-negative value. */
module Brightness {
  import opened RealArith

  /** The two BrightnessTransform classes, each with the maximum of the
      writer it was built for. */
  datatype BrightnessTransform = Linear(maxValue: nat) | InvertedLinear(maxValue: nat)

  /** The value transform casts: value * maxValue, or (1 - value) * maxValue. */
  function Scaled(t: BrightnessTransform, value: real): real
  {
    match t
    case Linear(m) => value * m as real
    case InvertedLinear(m) => (1.0 - value) * m as real
  }

  /** The cast in transform is defined: its argument is not negative. */
  predicate InDomain(t: BrightnessTransform, value: real)
  {
    Scaled(t, value) >= 0.0
  }

  /** transform(value): floor(value * maxValue), or floor((1 - value) * maxValue). */
  function Apply(t: BrightnessTransform, value: real): nat
    requires InDomain(t, value)
  {
    Scaled(t, value).Floor
  }

  /** Off and full brightness: 0 and 1 map to 0 and maxValue, the other way
      round for the inverted transform. */
  lemma ApplyLandmarks(t: BrightnessTransform)
    ensures InDomain(t, 0.0) && InDomain(t, 1.0)
    ensures t.Linear? ==> Apply(t, 0.0) == 0 && Apply(t, 1.0) == t.maxValue
    ensures t.InvertedLinear? ==> Apply(t, 0.0) == t.maxValue && Apply(t, 1.0) == 0
  {
  }

  /** Scaling [0, 1] by a non-negative factor r and taking floors keeps
      order and stays within [0, r]. */
  lemma ScaledFloors(v: real, w: real, r: real)
    requires 0.0 <= v <= w <= 1.0 && r >= 0.0
    ensures 0.0 <= v * r <= w * r <= r
    ensures (v * r).Floor <= (w * r).Floor
  {
    ScaleMonotone(0.0, v, r);
    ScaleMonotone(v, w, r);
    ScaleMonotone(w, 1.0, r);
    FloorMonotone(v * r, w * r);
  }

  lemma LinearRange(m: nat, v: real, w: real)
    requires 0.0 <= v <= w <= 1.0
    ensures InDomain(Linear(m), v) && InDomain(Linear(m), w)
    ensures Apply(Linear(m), v) <= Apply(Linear(m), w) <= m
  {
    var r := m as real;
    ScaledFloors(v, w, r);
    assert w * r <= m as real;
    FloorAtMost(w * r, m);
    assert Scaled(Linear(m), v) == v * r && Scaled(Linear(m), w) == w * r;
  }

  lemma InvertedRange(m: nat, v: real, w: real)
    requires 0.0 <= v <= w <= 1.0
    ensures InDomain(InvertedLinear(m), v) && InDomain(InvertedLinear(m), w)
    ensures Apply(InvertedLinear(m), w) <= Apply(InvertedLinear(m), v) <= m
  {
    var r := m as real;
    var x, y := 1.0 - w, 1.0 - v;
    ScaledFloors(x, y, r);
    FloorAtMost(y * r, m);
    assert Scaled(InvertedLinear(m), w) == x * r;
    assert Scaled(InvertedLinear(m), v) == y * r;
  }

  /** On [0, 1] both transforms are defined and stay within [0, maxValue];
      the linear one is non-decreasing, the inverted one non-increasing. */
  lemma ApplyRange(t: BrightnessTransform, v: real, w: real)
    requires 0.0 <= v <= w <= 1.0
    ensures InDomain(t, v) && InDomain(t, w)
    ensures Apply(t, v) <= t.maxValue && Apply(t, w) <= t.maxValue
    ensures t.Linear? ==> Apply(t, v) <= Apply(t, w)
    ensures t.InvertedLinear? ==> Apply(t, v) >= Apply(t, w)
  {
    match t
    case Linear(m) => LinearRange(m, v, w);
    case InvertedLinear(m) => InvertedRange(m, v, w);
  }

  /** Engine::transformBrightness: floor((1 - value) * 4095). */
  function EngineLevel(value: real): nat
    requires value <= 1.0
  {
    ((1.0 - value) * 4095.0).Floor
  }

  /** The Engine's transform is the inverted linear one for a 12-bit
      writer: 0 gives 4095, 1 gives 0. */
  lemma EngineLevelIsInverted(value: real)
    requires value <= 1.0
    ensures InDomain(InvertedLinear(4095), value) && EngineLevel(value) == Apply(InvertedLinear(4095), value)
    ensures EngineLevel(0.0) == 4095 && EngineLevel(1.0) == 0
  {
  }

  /** The blanking ramp's step (blankingBrightnessIncrement). */
  const RampStep: real := 0.015

  /** How many steps of the ramp `for (z = 0; z < brightness; z += step)`
      takes with exact arithmetic: the least n with n * step >= brightness. */
  function RampCount(brightness: real): nat
  {
    if brightness <= 0.0 then 0 else -((-brightness / RampStep).Floor)
  }

  /** RampCount is the first step at or beyond the brightness. */
  lemma RampCountFirst(brightness: real, k: nat)
    ensures RampCount(brightness) as real * RampStep >= brightness
    ensures k < RampCount(brightness) ==> k as real * RampStep < brightness
  {
    var n := RampCount(brightness);
    if brightness > 0.0 {
      var x := brightness / RampStep;
      assert x * RampStep == brightness;
      var f := (-x).Floor;
      assert f as real <= -x < f as real + 1.0;
      assert n as real >= x && (n - 1) as real < x;
      ScaleMonotone(x, n as real, RampStep);
      if k < n {
        ScaleMonotone(k as real, (n - 1) as real, RampStep);
        assert (n - 1) as real * RampStep < x * RampStep by {
          assert x * RampStep - (n - 1) as real * RampStep == (x - (n - 1) as real) * RampStep;
        }
      }
    }
  }

  /** The ramp loop goes on exactly while fewer than RampCount steps are
      done: after k steps z is k * step, and z < brightness iff k < RampCount. */
  lemma RampContinues(brightness: real, k: nat)
    ensures k as real * RampStep < brightness <==> k < RampCount(brightness)
  {
    RampCountFirst(brightness, k);
    if k >= RampCount(brightness) {
      ScaleMonotone(RampCount(brightness) as real, k as real, RampStep);
    }
  }

  /** Every level the ramp writes is defined when the final one is. */
  lemma RampInDomain(t: BrightnessTransform, brightness: real, k: nat)
    requires InDomain(t, brightness) && k < RampCount(brightness)
    ensures InDomain(t, k as real * RampStep)
  {
    RampCountFirst(brightness, k);
    var m := t.maxValue as real;
    var z := k as real * RampStep;
    assert 0.0 <= z < brightness;
    if t.Linear? {
      MulNonNegative(z, m);
      assert Scaled(t, z) == z * m;
    } else if m > 0.0 {
      var c := 1.0 - brightness;
      assert Scaled(t, brightness) == c * m;
      assert c * m >= 0.0;
      if c < 0.0 {
        MulNegative(c, m);
        assert false;
      }
      MulNonNegative(1.0 - z, m);
      assert Scaled(t, z) == (1.0 - z) * m;
    } else {
      assert Scaled(t, z) == (1.0 - z) * 0.0;
    }
  }
}
