// The arithmetic of config.py's input handling: the grid snap at the end of
// get_mouse_pixel_pos (459-464) and the colour, airbrush and brush-size
// keys of the global key handler in run (824-853).

module Input {
  import opened Support
  import opened Geometry
  import opened Brushes

  // ---------------------------------------------------------------------
  // Grid snap.

  /** One coordinate snapped to the grid of size gs and offset go:
    * (m - go + gs // 2) // gs * gs + go; a grid size of 0 raises
    * ZeroDivisionError. */
  function SnapAxis(m: int, go: int, gs: int): Option<int>
  {
    if gs == 0 then None else Some(FloorDiv(m - go + FloorDiv(gs, 2), gs) * gs + go)
  }

  /** The position get_mouse_pixel_pos returns after its grid step: snapped
    * on both axes when the grid is on, no pixel requester rectangle is
    * active and the caller does not ask to ignore the grid. */
  function SnapMouse(p: Point, gridOn: bool, reqRectActive: bool, ignoreGrid: bool,
                     offset: Point, size: Point): Option<Point>
  {
    if gridOn && !reqRectActive && !ignoreGrid then
      match (SnapAxis(p.x, offset.x, size.x), SnapAxis(p.y, offset.y, size.y))
      case (Some(x), Some(y)) => Some(Point(x, y))
      case _ => None
    else Some(p)
  }

  /** For a positive grid size the snapped coordinate lies on the grid and
    * within gs // 2 of the input; above the input by at most gs // 2 and
    * below it by less than gs - gs // 2. */
  lemma {:induction false} SnapNear(m: int, go: int, gs: int)
    requires gs > 0
    ensures SnapAxis(m, go, gs).Some?
    ensures var s := SnapAxis(m, go, gs).value;
            (s - go) % gs == 0 && Abs(s - m) <= gs / 2 &&
            s - m <= gs / 2 && m - s < gs - gs / 2
  {
    var h := gs / 2;
    FloorDivPositive(gs, 2);
    var t := m - go + h;
    FloorDivPositive(t, gs);
    var q := t / gs;
    var s := q * gs + go;
    assert s - go == gs * q + 0;
    DivModUnique(s - go, gs, q, 0);
    assert s - m == h - t % gs;
  }

  /** With positive grid sizes the step never fails; when it applies, both
    * coordinates end on the grid within half a grid cell of the mouse, and
    * otherwise the position passes through. */
  lemma {:induction false} SnapMouseOnGrid(p: Point, gridOn: bool, reqRectActive: bool, ignoreGrid: bool,
                                           offset: Point, size: Point)
    requires size.x > 0 && size.y > 0
    ensures SnapMouse(p, gridOn, reqRectActive, ignoreGrid, offset, size).Some?
    ensures var q := SnapMouse(p, gridOn, reqRectActive, ignoreGrid, offset, size).value;
            if gridOn && !reqRectActive && !ignoreGrid then
              (q.x - offset.x) % size.x == 0 && Abs(q.x - p.x) <= size.x / 2 &&
              (q.y - offset.y) % size.y == 0 && Abs(q.y - p.y) <= size.y / 2
            else q == p
  {
    SnapNear(p.x, offset.x, size.x);
    SnapNear(p.y, offset.y, size.y);
  }

  /** Snapping a snapped coordinate leaves it where it is. */
  lemma {:induction false} SnapIdempotent(m: int, go: int, gs: int)
    requires gs > 0
    ensures SnapAxis(SnapAxis(m, go, gs).value, go, gs) == SnapAxis(m, go, gs)
  {
    var h := gs / 2;
    FloorDivPositive(gs, 2);
    var t := m - go + h;
    FloorDivPositive(t, gs);
    var q := t / gs;
    var s := q * gs + go;
    assert s - go + h == gs * q + h;
    DivModUnique(s - go + h, gs, q, h);
    FloorDivPositive(s - go + h, gs);
  }

  /** No grid point is closer to the input than the snapped one. */
  lemma {:induction false} SnapNearest(m: int, go: int, gs: int, k: int)
    requires gs > 0
    ensures Abs(SnapAxis(m, go, gs).value - m) <= Abs(go + k * gs - m)
  {
    SnapNear(m, go, gs);
    var h := gs / 2;
    FloorDivPositive(gs, 2);
    var t := m - go + h;
    FloorDivPositive(t, gs);
    var q := t / gs;
    var s := q * gs + go;
    var d := s - m;
    var j := k - q;
    assert go + k * gs - m == d + j * gs;
    if j >= 1 {
      assert j * gs >= gs;
    } else if j <= -1 {
      assert j * gs <= -gs;
    }
  }

  // ---------------------------------------------------------------------
  // Key arithmetic.

  /** ']' and '[' step a colour index by d modulo the number of colours,
    * with Python's remainder. */
  function StepColor(c: int, d: int, n: int): int
    requires n != 0
  {
    FloorMod(c + d, n)
  }

  /** The stepped colour is a valid index, stepping from the last colour
    * wraps to 0 and from 0 back to the last. */
  lemma {:induction false} StepColorRange(c: int, d: int, n: int)
    requires n > 0
    ensures 0 <= StepColor(c, d, n) < n
    ensures 0 <= c + d < n ==> StepColor(c, d, n) == c + d
    ensures StepColor(n - 1, 1, n) == 0 && StepColor(0, -1, n) == n - 1
  {
    FloorDivPositive(c + d, n);
    if 0 <= c + d < n {
      DivModUnique(c + d, n, 0, c + d);
    }
    FloorDivPositive(n, n);
    DivModUnique(n, n, 1, 0);
    FloorDivPositive(-1, n);
    DivModUnique(-1, n, -1, n - 1);
  }

  /** ']' then '[', or '[' then ']', gives back the colour. */
  lemma {:induction false} StepColorInverse(c: int, n: int)
    requires 0 <= c < n
    ensures StepColor(StepColor(c, 1, n), -1, n) == c
    ensures StepColor(StepColor(c, -1, n), 1, n) == c
  {
    StepColorRange(c, 1, n);
    StepColorRange(c, -1, n);
    var up := StepColor(c, 1, n);
    var down := StepColor(c, -1, n);
    StepColorRange(up, -1, n);
    StepColorRange(down, 1, n);
  }

  const AIRBRUSH_MIN := 5
  const AIRBRUSH_MAX := 50

  /** '+' with the airbrush tool: one larger, capped at 50. */
  function AirbrushGrow(s: int): int
  {
    if s + 1 > AIRBRUSH_MAX then AIRBRUSH_MAX else s + 1
  }

  /** '-' with the airbrush tool: one smaller, floored at 5. */
  function AirbrushShrink(s: int): int
  {
    if s - 1 < AIRBRUSH_MIN then AIRBRUSH_MIN else s - 1
  }

  /** Both keys keep the airbrush size in [5, 50], and each undoes the other
    * away from the bounds. */
  lemma {:induction false} AirbrushStays(s: int)
    requires AIRBRUSH_MIN <= s <= AIRBRUSH_MAX
    ensures AIRBRUSH_MIN <= AirbrushGrow(s) <= AIRBRUSH_MAX
    ensures AIRBRUSH_MIN <= AirbrushShrink(s) <= AIRBRUSH_MAX
    ensures s < AIRBRUSH_MAX ==> AirbrushShrink(AirbrushGrow(s)) == s
    ensures s > AIRBRUSH_MIN ==> AirbrushGrow(AirbrushShrink(s)) == s
  {
  }

  /** The painter state the keys change: the drawing and background
    * colours, the number of colours, the airbrush size and the brush. */
  class Painter {
    var color: int
    var bgcolor: int
    var numColors: int
    var airbrushSize: int
    var brush: Brush

    /** The values initialize sets up (config.py:288-319). */
    constructor ()
      ensures color == 1 && bgcolor == 0 && numColors == 64 && airbrushSize == 10
      ensures fresh(brush) && brush.kind == CIRCLE && brush.size == 1
    {
      color := 1;
      bgcolor := 0;
      numColors := 64;
      airbrushSize := 10;
      brush := new Brush(CIRCLE, 1, 0, Point(0, 0), Point(0, 0));
    }

    /** ']': the next background colour with shift, else the next colour. */
    method NextColor(shift: bool)
      requires numColors != 0
      modifies this
      ensures numColors == old(numColors) && airbrushSize == old(airbrushSize) && brush == old(brush)
      ensures shift ==> bgcolor == StepColor(old(bgcolor), 1, numColors) && color == old(color)
      ensures !shift ==> color == StepColor(old(color), 1, numColors) && bgcolor == old(bgcolor)
    {
      if shift {
        bgcolor := FloorMod(bgcolor + 1, numColors);
      } else {
        color := FloorMod(color + 1, numColors);
      }
    }

    /** '[': the previous background colour with shift, else the previous
      * colour. */
    method PrevColor(shift: bool)
      requires numColors != 0
      modifies this
      ensures numColors == old(numColors) && airbrushSize == old(airbrushSize) && brush == old(brush)
      ensures shift ==> bgcolor == StepColor(old(bgcolor), -1, numColors) && color == old(color)
      ensures !shift ==> color == StepColor(old(color), -1, numColors) && bgcolor == old(bgcolor)
    {
      if shift {
        bgcolor := FloorMod(bgcolor - 1, numColors);
      } else {
        color := FloorMod(color - 1, numColors);
      }
    }

    /** '+' or '=': a larger airbrush with the airbrush tool, else a brush
      * one size larger through the brush's size setter. */
    method Plus(airbrushTool: bool)
      modifies this, brush
      ensures brush == old(brush) && color == old(color) && bgcolor == old(bgcolor)
      ensures airbrushTool ==> airbrushSize == AirbrushGrow(old(airbrushSize)) &&
                               brush.Layout() == old(brush.Layout())
      ensures !airbrushTool ==> airbrushSize == old(airbrushSize) &&
                                brush.Layout() == Resized(old(brush.Layout()), old(brush.size) + 1)
    {
      if airbrushTool {
        airbrushSize := airbrushSize + 1;
        if airbrushSize > AIRBRUSH_MAX {
          airbrushSize := AIRBRUSH_MAX;
        }
      } else {
        brush.SetSize(brush.size + 1);
      }
    }

    /** '-': a smaller airbrush with the airbrush tool, else a brush one
      * size smaller through the brush's size setter. */
    method Minus(airbrushTool: bool)
      modifies this, brush
      ensures brush == old(brush) && color == old(color) && bgcolor == old(bgcolor)
      ensures airbrushTool ==> airbrushSize == AirbrushShrink(old(airbrushSize)) &&
                               brush.Layout() == old(brush.Layout())
      ensures !airbrushTool ==> airbrushSize == old(airbrushSize) &&
                                brush.Layout() == Resized(old(brush.Layout()), old(brush.size) - 1)
    {
      if airbrushTool {
        airbrushSize := airbrushSize - 1;
        if airbrushSize < AIRBRUSH_MIN {
          airbrushSize := AIRBRUSH_MIN;
        }
      } else {
        brush.SetSize(brush.size - 1);
      }
    }
  }
}
