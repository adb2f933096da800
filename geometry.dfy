/**
 * The fixed dimensions of the play area and the arithmetic that places the
 * drop slots on a 12-per-row grid. Coordinates are exact reals.
 */
module Geometry {

  const CanvasWidth: real := 800.0
  const CanvasHeight: real := 400.0
  /** Side of every tile and every slot. */
  const CubeSize: real := 50.0
  /** Space between neighbouring slots. */
  const Gutter: real := 10.0
  /** Slots per grid row. */
  const RowLimit: nat := 12
  /** Left and top margin of the slot grid. */
  const GridOrigin: real := 50.0
  /** How far a falling tile moves down in one frame. */
  const FallStep: real := 1.5

  /**
   * The point lies strictly inside the square of side `CubeSize` whose top-left
   * corner is (left, top): a point on an edge is outside.
   */
  predicate StrictlyInside(px: real, py: real, left: real, top: real) {
    px > left && px < left + CubeSize && py > top && py < top + CubeSize
  }

  function Abs(v: real): real {
    if v < 0.0 then -v else v
  }

  /**
   * The strict square test, seen from the centre: the point is less than half a
   * side away from the square's centre along both axes.
   */
  lemma StrictlyInsideCentred(px: real, py: real, left: real, top: real)
    ensures StrictlyInside(px, py, left, top) <==>
      Abs(px - (left + CubeSize / 2.0)) < CubeSize / 2.0 && Abs(py - (top + CubeSize / 2.0)) < CubeSize / 2.0
  {
  }

  /** Left edge of the `k`-th slot: column `k mod 12`. */
  function SlotX(k: nat): real {
    GridOrigin + ((k % RowLimit) as real) * (CubeSize + Gutter)
  }

  /** Top edge of the `k`-th slot: row `k div 12`. */
  function SlotY(k: nat): real {
    GridOrigin + ((k / RowLimit) as real) * (CubeSize + Gutter)
  }

  /** The position of slot `row * 12 + column`, for a column inside the row. */
  lemma SlotAtCell(row: nat, column: nat)
    requires column < RowLimit
    ensures SlotX(row * RowLimit + column) == GridOrigin + (column as real) * (CubeSize + Gutter)
    ensures SlotY(row * RowLimit + column) == GridOrigin + (row as real) * (CubeSize + Gutter)
  {
    var k := row * RowLimit + column;
    assert k / RowLimit == row && k % RowLimit == column;
  }

  /** Two different integers, as reals, are at least one apart. */
  lemma IntsApart(a: int, b: int)
    requires a != b
    ensures Abs((a as real) - (b as real)) >= 1.0
  {
  }

  /**
   * Slots of different indices never overlap: no point is strictly inside two
   * of them, because neighbouring slots are a gutter apart.
   */
  lemma {:induction false} SlotsDisjoint(k1: nat, k2: nat, px: real, py: real)
    requires k1 != k2
    requires StrictlyInside(px, py, SlotX(k1), SlotY(k1))
    ensures !StrictlyInside(px, py, SlotX(k2), SlotY(k2))
  {
    var c1, c2 := k1 % RowLimit, k2 % RowLimit;
    var r1, r2 := k1 / RowLimit, k2 / RowLimit;
    if c1 != c2 {
      IntsApart(c1, c2);
      assert Abs(SlotX(k1) - SlotX(k2)) == Abs((c1 as real) - (c2 as real)) * 60.0;
    } else {
      assert r1 != r2;
      IntsApart(r1, r2);
      assert Abs(SlotY(k1) - SlotY(k2)) == Abs((r1 as real) - (r2 as real)) * 60.0;
    }
  }

  /**
   * Where `random(100, width - cubeSize)` and `random(height / 2, height - cubeSize)`
   * put a tile: a half-open area across most of the width, in the lower half of the canvas.
   */
  predicate InScrambleArea(x: real, y: real) {
    100.0 <= x < CanvasWidth - CubeSize && CanvasHeight / 2.0 <= y < CanvasHeight - CubeSize
  }
}
