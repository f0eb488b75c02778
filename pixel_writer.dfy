/** The emulator's stand-in for the DAC pair (emulator/SDL2Writer.h): a
    write of the 12-bit coordinates (x, y) lights one pixel of a square
    window of 2^resolution by 2^resolution cells. Each coordinate is
    shifted right by `shift = 12 - resolution`; the row-major cell index is
    computed in 32-bit unsigned arithmetic. */
module PixelWriters {
  import opened DacScale

  /** The value a write stores: every bit of the 32-bit pixel set. */
  const Lit: nat := 0xFFFF_FFFF

  /** 2^32, the modulus of `unsigned int` arithmetic. */
  const Word: nat := 0x1_0000_0000

  /** `v >> s` on an unsigned value: s halvings, each dropping the low bit. */
  function ShiftRight(v: nat, s: nat): nat
  {
    if s == 0 then v else ShiftRight(v / 2, s - 1)
  }

  /** The shift divides by 2^s, rounding down: q 2^s <= v < (q + 1) 2^s. */
  lemma {:induction false} ShiftRightBounds(v: nat, s: nat)
    ensures ShiftRight(v, s) * Pow2(s) <= v < ShiftRight(v, s) * Pow2(s) + Pow2(s)
  {
    if s > 0 {
      var q, p := ShiftRight(v / 2, s - 1), Pow2(s - 1);
      ShiftRightBounds(v / 2, s - 1);
      assert q * Pow2(s) == 2 * (q * p);
    }
  }

  /** The cell `write(x, y)` stores into:
      `(y >> shift) * (1 << resolution) + (x >> shift)`, wrapped to 32 bits. */
  function Cell(resolution: nat, shift: nat, x: nat, y: nat): nat
  {
    (ShiftRight(y, shift) * Pow2(resolution) + ShiftRight(x, shift)) % Word
  }

  /** The pixel buffer after `write(x, y)`. */
  function Written(cells: seq<nat>, resolution: nat, shift: nat, x: nat, y: nat): (r: seq<nat>)
    requires Cell(resolution, shift, x, y) < |cells|
    ensures |r| == |cells|
  {
    cells[Cell(resolution, shift, x, y) := Lit]
  }

  lemma MulLess(a: nat, b: nat, c: nat)
    requires a < b && c >= 1
    ensures a * c + c <= b * c
  {
    assert b * c == a * c + (b - a) * c;
    assert (b - a) * c >= c by { MulStrict(0, b - a - 1 + 1, c); assert (b - a) * c == (b - a - 1) * c + c; }
  }

  /** A coordinate of 12 bits shifted right by 12 - resolution keeps
      resolution bits. */
  lemma ShiftedBelow(v: nat, resolution: nat)
    requires resolution <= MaxResolutionBits && v < Pow2(MaxResolutionBits)
    ensures ShiftRight(v, MaxResolutionBits - resolution) < Pow2(resolution)
  {
    var s := MaxResolutionBits - resolution;
    Pow2Add(resolution, s);
    var q := ShiftRight(v, s);
    ShiftRightBounds(v, s);
    if q > Pow2(resolution) {
      MulStrict(Pow2(resolution), q, Pow2(s));
      assert false;
    }
  }

  /** Division and remainder undo `q * d + r` for 0 <= r < d. */
  lemma DivModOf(q: nat, r: nat, d: nat)
    requires r < d
    ensures (q * d + r) / d == q && (q * d + r) % d == r
  {
    var n := q * d + r;
    var q', r' := n / d, n % d;
    assert q' * d + r' == q * d + r;
    if q' < q {
      MulLess(q', q, d);
      assert false;
    } else if q' > q {
      MulLess(q, q', d);
      assert false;
    }
  }

  /** A row and a column below size = 2^resolution, resolution at most 12,
      give a row-major index below size * size, far from the 32-bit wrap. */
  lemma IndexNoWrap(resolution: nat, row: nat, col: nat)
    requires resolution <= MaxResolutionBits
    requires row < Pow2(resolution) && col < Pow2(resolution)
    ensures row * Pow2(resolution) + col < Pow2(resolution) * Pow2(resolution)
    ensures (row * Pow2(resolution) + col) % Word == row * Pow2(resolution) + col
  {
    var w := Pow2(resolution);
    Pow2Monotone(resolution, MaxResolutionBits);
    Pow2Twelve();
    RowMajorBelow(row, col, w);
    WordSmall(row * w + col);
  }

  lemma Pow2Twelve()
    ensures Pow2(MaxResolutionBits) == 4096
  {
    assert Pow2(4) == 16;
    assert Pow2(8) == 16 * Pow2(4) by { Pow2Add(4, 4); }
    assert Pow2(12) == 16 * Pow2(8) by { Pow2Add(4, 8); }
  }

  /** A row-major index into a window of at most 4096 by 4096 cells lies
      below the cell count and far below 2^32. */
  lemma RowMajorBelow(row: nat, col: nat, w: nat)
    requires row < w && col < w && w <= 4096
    ensures 0 <= row * w + col < w * w <= 16777216
  {
    MulLess(row, w, w);
    if row > 0 {
      MulStrict(0, row, w);
    }
    if w < 4096 {
      MulStrict(w, 4096, w);
      MulStrict(w, 4096, 4096);
    }
  }

  lemma WordSmall(n: int)
    requires 0 <= n < Word
    ensures n % Word == n
  {
  }

  /** For 12-bit coordinates and a resolution of at most 12 bits the index
      does not wrap, lies inside the size by size window (size =
      2^resolution), and
      gives back both shifted coordinates: the row is the index divided by
      the width, the column the remainder. */
  lemma CellDecodes(resolution: nat, x: nat, y: nat)
    requires resolution <= MaxResolutionBits
    requires x < Pow2(MaxResolutionBits) && y < Pow2(MaxResolutionBits)
    ensures var s := MaxResolutionBits - resolution;
      var c := Cell(resolution, s, x, y);
      && c < Pow2(resolution) * Pow2(resolution)
      && c / Pow2(resolution) == ShiftRight(y, s)
      && c % Pow2(resolution) == ShiftRight(x, s)
  {
    var s := MaxResolutionBits - resolution;
    CellUnwrapped(resolution, x, y);
    DivModOf(ShiftRight(y, s), ShiftRight(x, s), Pow2(resolution));
  }

  /** For 12-bit coordinates the cell index is the unwrapped row-major index. */
  lemma CellUnwrapped(resolution: nat, x: nat, y: nat)
    requires resolution <= MaxResolutionBits
    requires x < Pow2(MaxResolutionBits) && y < Pow2(MaxResolutionBits)
    ensures var s := MaxResolutionBits - resolution;
      var c := Cell(resolution, s, x, y);
      && ShiftRight(x, s) < Pow2(resolution)
      && c == ShiftRight(y, s) * Pow2(resolution) + ShiftRight(x, s)
      && c < Pow2(resolution) * Pow2(resolution)
  {
    var s := MaxResolutionBits - resolution;
    ShiftedBelow(x, resolution);
    ShiftedBelow(y, resolution);
    IndexNoWrap(resolution, ShiftRight(y, s), ShiftRight(x, s));
  }

  /** Two writes light the same cell exactly when their coordinates agree
      after the shift. */
  lemma SameCellIff(resolution: nat, x1: nat, y1: nat, x2: nat, y2: nat)
    requires resolution <= MaxResolutionBits
    requires x1 < Pow2(MaxResolutionBits) && y1 < Pow2(MaxResolutionBits)
    requires x2 < Pow2(MaxResolutionBits) && y2 < Pow2(MaxResolutionBits)
    ensures var s := MaxResolutionBits - resolution;
      Cell(resolution, s, x1, y1) == Cell(resolution, s, x2, y2)
      <==> ShiftRight(x1, s) == ShiftRight(x2, s) && ShiftRight(y1, s) == ShiftRight(y2, s)
  {
    CellDecodes(resolution, x1, y1);
    CellDecodes(resolution, x2, y2);
  }

  /** A write changes its own cell only, to Lit, and writing the same
      coordinates again changes nothing more. */
  lemma WrittenOnlyCell(cells: seq<nat>, resolution: nat, shift: nat, x: nat, y: nat)
    requires Cell(resolution, shift, x, y) < |cells|
    ensures var r := Written(cells, resolution, shift, x, y);
      && r[Cell(resolution, shift, x, y)] == Lit
      && (forall i :: 0 <= i < |cells| && i != Cell(resolution, shift, x, y) ==> r[i] == cells[i])
      && Written(r, resolution, shift, x, y) == r
  {
  }

  /** SDL2Writer: the resolution, the shift fixed from it at construction,
      and the window's pixel buffer, shared with the window and written in
      place. */
  class PixelWriter {
    const resolution: nat
    const shift: nat
    const buffer: array<nat>

    /** The shift is `12 - resolution` on `unsigned int`; a resolution above
        12 would wrap it to a shift wider than the word. */
    constructor (resolution: nat, buffer: array<nat>)
      requires resolution <= MaxResolutionBits
      ensures this.resolution == resolution && this.buffer == buffer
      ensures shift + resolution == MaxResolutionBits
    {
      this.resolution := resolution;
      this.shift := MaxResolutionBits - resolution;
      this.buffer := buffer;
    }

    /** write: the store is unchecked, so the cell must lie inside the buffer. */
    method Write(x: nat, y: nat)
      requires x < Word && y < Word
      requires Cell(resolution, shift, x, y) < buffer.Length
      modifies buffer
      ensures buffer[..] == Written(old(buffer[..]), resolution, shift, x, y)
    {
      var index := (ShiftRight(y, shift) * Pow2(resolution) + ShiftRight(x, shift)) % Word;
      buffer[index] := Lit;
    }
  }
}
