/** Facts about real multiplication and floors, stated once so that the
    proofs about casts and interpolation do not lean on the solver's
    nonlinear reasoning. */
module RealArith {

  lemma MulNonNegative(a: real, b: real)
    requires a >= 0.0 && b >= 0.0
    ensures a * b >= 0.0
  {
  }

  lemma MulNegative(a: real, b: real)
    requires a < 0.0 && b > 0.0
    ensures a * b < 0.0
  {
  }

  lemma ScaleMonotone(x: real, y: real, h: real)
    requires x <= y && h >= 0.0
    ensures x * h <= y * h
  {
    MulNonNegative(y - x, h);
    assert (y - x) * h == y * h - x * h;
  }

  lemma ScaleStrict(x: real, y: real, h: real)
    requires x < y && h > 0.0
    ensures x * h < y * h
  {
    assert (y - x) * h == y * h - x * h;
    assert (y - x) * h > 0.0;
  }

  lemma FloorMonotone(x: real, y: real)
    requires x <= y
    ensures x.Floor <= y.Floor
  {
  }

  /** A floor of a value at most an integer n is at most n. */
  lemma FloorAtMost(x: real, n: int)
    requires x <= n as real
    ensures x.Floor <= n
  {
  }
}
