/** The DAC scaling arithmetic of the older renderer header (Voltage/Renderer.h):
    a device coordinate of `resolutionBits` bits is shifted left by
    `scaleBits = maxResolutionBits - resolutionBits` to fill the 12-bit DAC range.
    The subtraction is on `uint8_t`, so it wraps when the resolution exceeds 12. */
module DacScale {

  const MaxResolutionBits: nat := 12

  function Pow2(n: nat): (r: nat)
    ensures r >= 1
  {
    if n == 0 then 1 else 2 * Pow2(n - 1)
  }

  lemma {:induction false} Pow2Add(m: nat, n: nat)
    ensures Pow2(m + n) == Pow2(m) * Pow2(n)
    decreases m
  {
    if m > 0 {
      Pow2Add(m - 1, n);
      assert Pow2(m + n) == 2 * Pow2(m - 1 + n);
    }
  }

  lemma {:induction false} Pow2Monotone(m: nat, n: nat)
    requires m <= n
    ensures Pow2(m) <= Pow2(n)
    decreases n
  {
    if m < n {
      Pow2Monotone(m, n - 1);
    }
  }

  /** scaleBits as the `uint8_t` initialiser computes it: 12 - resolutionBits modulo 256. */
  function ScaleBits(resolutionBits: nat): (s: nat)
    requires resolutionBits < 256
    ensures s < 256
  {
    (MaxResolutionBits - resolutionBits) % 256
  }

  /** Within the 12-bit range the two widths add up to 12; beyond it the
      subtraction wraps to 268 - resolutionBits, a shift wider than the DAC. */
  lemma ScaleBitsWraps(resolutionBits: nat)
    requires resolutionBits < 256
    ensures resolutionBits <= MaxResolutionBits ==> ScaleBits(resolutionBits) + resolutionBits == MaxResolutionBits
    ensures resolutionBits > MaxResolutionBits ==>
      ScaleBits(resolutionBits) == 256 + MaxResolutionBits - resolutionBits > MaxResolutionBits
  {
  }

  lemma MulStrict(a: nat, b: nat, c: nat)
    requires a < b && c >= 1
    ensures a * c < b * c
  {
    assert b * c == a * c + (b - a) * c;
  }

  /** `code << bits` (no 32-bit wrap: see ShiftInRange). */
  function Shift(code: int, bits: nat): int
  {
    code * Pow2(bits)
  }

  /** A device coordinate below 2^resolutionBits, shifted by scaleBits, lands
      below 2^12. */
  lemma ShiftInRange(code: nat, resolutionBits: nat)
    requires resolutionBits <= MaxResolutionBits && code < Pow2(resolutionBits)
    ensures Shift(code, ScaleBits(resolutionBits)) < Pow2(MaxResolutionBits)
  {
    var s := ScaleBits(resolutionBits);
    Pow2Add(resolutionBits, s);
    MulStrict(code, Pow2(resolutionBits), Pow2(s));
  }

  /** Distinct coordinates give distinct DAC values. */
  lemma ShiftInjective(c1: nat, c2: nat, bits: nat)
    requires Shift(c1, bits) == Shift(c2, bits)
    ensures c1 == c2
  {
    if c1 < c2 {
      MulStrict(c1, c2, Pow2(bits));
    } else if c1 > c2 {
      MulStrict(c2, c1, Pow2(bits));
    }
  }

  /** The shift preserves order. */
  lemma ShiftMonotone(c1: nat, c2: nat, bits: nat)
    requires c1 <= c2
    ensures Shift(c1, bits) <= Shift(c2, bits)
  {
    if c1 < c2 {
      MulStrict(c1, c2, Pow2(bits));
    }
  }
}
