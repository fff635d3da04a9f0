/** Canvas-space positions and the three distance tests of the mouse handlers. Positions
    are integers: the conversion from client coordinates (`getMousePos`) is not modelled. */
module Geometry {

  datatype Pos = Pos(x: int, y: int)

  /** `radius` of `getPointAtPosition` (script.js:199). */
  const HitRadius: int := 8

  function Abs(n: int): (r: nat)
    ensures r == n || r == -n
  {
    if n < 0 then -n else n
  }

  /** The hit test at script.js:202-204: squared distance at most `radius * radius`. */
  predicate WithinHitRadius(px: int, py: int, x: int, y: int)
  {
    (px - x) * (px - x) + (py - y) * (py - y) <= HitRadius * HitRadius
  }

  /** The test of `mousemove` (script.js:341): more than 2 pixels on either axis. */
  predicate MovedPastDragThreshold(start: Pos, pos: Pos)
  {
    Abs(pos.x - start.x) > 2 || Abs(pos.y - start.y) > 2
  }

  /** The test of `mouseup` (script.js:357-360): less than 3 pixels on both axes. */
  predicate SmallMovement(start: Pos, pos: Pos)
  {
    Abs(pos.x - start.x) < 3 && Abs(pos.y - start.y) < 3
  }

  /** On integer positions the two thresholds are exact complements: a release counts as a
      click exactly when a move to the same place would not have started a drag. */
  lemma ThresholdsComplementary(start: Pos, pos: Pos)
    ensures SmallMovement(start, pos) <==> !MovedPastDragThreshold(start, pos)
  {
  }

  /** How the squared-distance test relates to plain distances: a point at Manhattan
      distance at most `HitRadius` from the cursor is hit, and one more than `HitRadius`
      away along either axis is not. (At 8 on both axes a point is not hit: 128 > 64.) */
  lemma HitRadiusBounds(px: int, py: int, x: int, y: int)
    ensures Abs(px - x) + Abs(py - y) <= HitRadius ==> WithinHitRadius(px, py, x, y)
    ensures Abs(px - x) > HitRadius || Abs(py - y) > HitRadius ==> !WithinHitRadius(px, py, x, y)
  {
    var dx, dy := Abs(px - x), Abs(py - y);
    SquareOfAbs(px - x);
    SquareOfAbs(py - y);
    if dx + dy <= HitRadius {
      SquaresBelowSquareOfSum(dx, dy);
      SquareMonotone(dx + dy, HitRadius);
    }
    if dx > HitRadius {
      SquareMonotone(HitRadius + 1, dx);
    }
    if dy > HitRadius {
      SquareMonotone(HitRadius + 1, dy);
    }
  }

  lemma SquareOfAbs(n: int)
    ensures n * n == Abs(n) * Abs(n)
  {
  }

  lemma SquareMonotone(a: nat, b: nat)
    requires a <= b
    ensures a * a <= b * b
  {
    assert a * a <= a * b;
  }

  lemma SquaresBelowSquareOfSum(a: nat, b: nat)
    ensures a * a + b * b <= (a + b) * (a + b)
  {
    assert (a + b) * (a + b) == a * a + 2 * (a * b) + b * b;
  }
}
