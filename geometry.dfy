// Screen coordinates and the small geometric helpers of prim.py: the
// on-screen tests, the fill bounding box and the curve control-point
// conversion.

module Geometry {
  import opened Support

  datatype Point = Point(x: int, y: int)

  /** onscreen (prim.py:27-35) on a canvas of w by h pixels. */
  predicate Onscreen(p: Point, w: int, h: int)
  {
    0 <= p.x < w && 0 <= p.y < h
  }

  /** A rectangle as a list [x, y, width, height]. */
  datatype Rect = Rect(x: int, y: int, w: int, h: int)

  /** Some pixel of the rectangle, columns x..x+w-1 and rows y..y+h-1, lies
    * on the canvas. */
  ghost predicate Visible(r: Rect, w: int, h: int)
  {
    exists px: int, py: int :: r.x <= px < r.x + r.w && r.y <= py < r.y + r.h && Onscreen(Point(px, py), w, h)
  }

  /** rect_onscreen (prim.py:38-55) as written: the rectangle is rejected
    * only when it starts right of column w or below row h, or ends left of
    * column 0 or above row 0. */
  function RectOnscreen(r: Rect, w: int, h: int): (b: bool)
    ensures !b <==> r.x > w || r.x + r.w < 0 || r.y > h || r.y + r.h < 0
  {
    var rx := r.x + r.w;
    var ry := r.y + r.h;
    if r.x > w || rx < 0 then false
    else if r.y > h || ry < 0 then false
    else true
  }

  /** rect_onscreen never rejects a rectangle that has a pixel on the canvas. */
  lemma {:induction false} RectOnscreenSound(r: Rect, w: int, h: int)
    requires Visible(r, w, h)
    ensures RectOnscreen(r, w, h)
  {
    var px: int, py: int :| r.x <= px < r.x + r.w && r.y <= py < r.y + r.h && Onscreen(Point(px, py), w, h);
  }

  /** A point is on screen exactly when the one-pixel rectangle at it has a
    * pixel on the canvas, and rect_onscreen accepts that rectangle then. */
  lemma {:induction false} OnscreenPixel(p: Point, w: int, h: int)
    ensures Onscreen(p, w, h) <==> Visible(Rect(p.x, p.y, 1, 1), w, h)
    ensures Onscreen(p, w, h) ==> RectOnscreen(Rect(p.x, p.y, 1, 1), w, h)
  {
    if Onscreen(p, w, h) {
      assert p.x <= p.x < p.x + 1 && p.y <= p.y < p.y + 1 && Onscreen(Point(p.x, p.y), w, h);
    }
    if Visible(Rect(p.x, p.y, 1, 1), w, h) {
      var px: int, py: int :| p.x <= px < p.x + 1 && p.y <= py < p.y + 1 && Onscreen(Point(px, py), w, h);
    }
  }

  /** It accepts the 1x1 rectangle just right of the canvas, which has no
    * pixel on it (the comparisons are off by one at both edges). */
  lemma {:induction false} RectOnscreenEdge(w: int, h: int)
    requires w > 0 && h > 0
    ensures RectOnscreen(Rect(w, 0, 1, 1), w, h) && !Visible(Rect(w, 0, 1, 1), w, h)
    ensures RectOnscreen(Rect(-1, 0, 1, 1), w, h) && !Visible(Rect(-1, 0, 1, 1), w, h)
  {
  }

  /** The test the comment at prim.py:37 describes: at least partly on screen. */
  function RectOnscreenExact(r: Rect, w: int, h: int): bool
  {
    0 < w && 0 < h && 0 < r.w && 0 < r.h && r.x < w && r.x + r.w > 0 && r.y < h && r.y + r.h > 0
  }

  /** The corrected test accepts exactly the rectangles with a pixel on the
    * canvas. */
  lemma {:induction false} RectOnscreenExactIff(r: Rect, w: int, h: int)
    ensures RectOnscreenExact(r, w, h) <==> Visible(r, w, h)
  {
    if RectOnscreenExact(r, w, h) {
      var px := Max(r.x, 0);
      var py := Max(r.y, 0);
      assert r.x <= px < r.x + r.w && r.y <= py < r.y + r.h && Onscreen(Point(px, py), w, h);
    }
    if Visible(r, w, h) {
      var px: int, py: int :| r.x <= px < r.x + r.w && r.y <= py < r.y + r.h && Onscreen(Point(px, py), w, h);
    }
  }

  /** An hline call: row y from column x1 to column x2. */
  datatype Span = Span(y: int, x1: int, x2: int)

  // ---------------------------------------------------------------------
  // add_bounds (prim.py:57-67)

  /** config.fillmode.bounds: [minx, miny, maxx, maxy]. */
  datatype Bounds = Bounds(x1: int, y1: int, x2: int, y2: int)

  /** FillMode.NOBOUNDS: an empty box that any point widens. */
  const NoBounds := Bounds(65535, 65535, -1, -1)

  predicate Encloses(b: Bounds, p: Point)
  {
    b.x1 <= p.x <= b.x2 && b.y1 <= p.y <= b.y2
  }

  class FillMode {
    var bounds: Bounds

    constructor ()
      ensures bounds == NoBounds
    {
      bounds := NoBounds;
    }

    /** add_bounds: each side moves out just far enough to take in p. */
    method AddBounds(p: Point)
      modifies this
      ensures bounds == Bounds(Min(old(bounds).x1, p.x), Min(old(bounds).y1, p.y), Max(old(bounds).x2, p.x), Max(old(bounds).y2, p.y))
    {
      var b := bounds;
      if p.x < b.x1 {
        b := b.(x1 := p.x);
      }
      if p.y < b.y1 {
        b := b.(y1 := p.y);
      }
      if p.x > b.x2 {
        b := b.(x2 := p.x);
      }
      if p.y > b.y2 {
        b := b.(y2 := p.y);
      }
      bounds := b;
    }
  }

  /** The box after add_bounds(p). */
  function Widen(b: Bounds, p: Point): Bounds
  {
    Bounds(Min(b.x1, p.x), Min(b.y1, p.y), Max(b.x2, p.x), Max(b.y2, p.y))
  }

  /** The widened box holds p and everything the old box held, and is the
    * smallest such box. */
  lemma {:induction false} WidenEncloses(b: Bounds, p: Point, q: Point)
    ensures Encloses(Widen(b, p), p)
    ensures Encloses(b, q) ==> Encloses(Widen(b, p), q)
    ensures forall c: Bounds :: Encloses(c, p) && c.x1 <= b.x1 && c.y1 <= b.y1 && b.x2 <= c.x2 && b.y2 <= c.y2 ==>
              c.x1 <= Widen(b, p).x1 && c.y1 <= Widen(b, p).y1 && Widen(b, p).x2 <= c.x2 && Widen(b, p).y2 <= c.y2
  {
  }

  // ---------------------------------------------------------------------
  // convert_curve_control (prim.py:869-881)

  /** The control point that makes the quadratic Bezier from `from` to `to`
    * pass through `through` at its midpoint: 2*through - midpoint, with the
    * midpoint rounded down. */
  function ConvertCurveControl(from: Point, to: Point, through: Point): Point
  {
    var mx := FloorDiv(from.x + to.x, 2);
    var my := FloorDiv(from.y + to.y, 2);
    Point((through.x - mx) * 2 + mx, (through.y - my) * 2 + my)
  }

  /** The quadratic Bezier (1-t)^2 a + 2t(1-t) c + t^2 b at t = 1/2, times 4. */
  function BezierMid4(a: int, c: int, b: int): int
  {
    a + 2 * c + b
  }

  /** With the control point from convert_curve_control the curve's midpoint
    * is `through`, exactly when the end points have even coordinate sums
    * and within half a pixel otherwise. */
  lemma {:induction false} ConvertCurveControlMid(from: Point, to: Point, through: Point)
    ensures var c := ConvertCurveControl(from, to, through);
            BezierMid4(from.x, c.x, to.x) == 4 * through.x + (from.x + to.x) % 2 &&
            BezierMid4(from.y, c.y, to.y) == 4 * through.y + (from.y + to.y) % 2
  {
    FloorDivPositive(from.x + to.x, 2);
    FloorDivPositive(from.y + to.y, 2);
  }
}
