// The midpoint circle algorithm of drawcircle (prim.py:631-672) and
// fillcircle (prim.py:674-708): the octant walk, the eight coordinate lists
// of the outline and the horizontal spans of the filled disc.

module Circles {
  import opened Support
  import opened Geometry
  import opened Lines

  // ---------------------------------------------------------------------
  // The octant, as a reference definition

  /** One step of the walk from (x, y) to column x + 1: the row stays when
    * the midpoint (x + 1, y - 1/2) lies inside the circle of radius r, and
    * moves one row in otherwise (all quantities taken times four). */
  function Next(r: int, p: Point): Point
  {
    var x1 := p.x + 1;
    if 4 * (x1 * x1) + 4 * (p.y * p.y) - 4 * p.y + 1 < 4 * (r * r) then Point(x1, p.y) else Point(x1, p.y - 1)
  }

  /** The points the walk visits from p on, while x < y. */
  function OctantFrom(r: int, p: Point): seq<Point>
    decreases p.y - p.x
  {
    [p] + (if p.x < p.y then OctantFrom(r, Next(r, p)) else [])
  }

  /** The first octant of the circle of radius r, from (0, r) on. */
  function Octant(r: int): seq<Point>
  {
    OctantFrom(r, Point(0, r))
  }

  /** What is left of the walk after p. */
  function After(r: int, p: Point): seq<Point>
  {
    if p.x < p.y then OctantFrom(r, Next(r, p)) else []
  }

  /** The decision variable of drawcircle, err, times four: at (x, y) it is
    * where the next midpoint (x + 1, y - 1/2) lies relative to the circle. */
  function Decision(r: int, p: Point): int
  {
    4 * (p.x * p.x) + 8 * p.x + 4 + 4 * (p.y * p.y) - 4 * p.y + 1 - 4 * (r * r)
  }

  // ---------------------------------------------------------------------
  // The eight lists of drawcircle

  /** The image of octant point p in list k (0..7) around centre c. */
  function Image(k: nat, c: Point, p: Point): Point
  {
    if k == 0 then Point(c.x + p.y, c.y + p.x)
    else if k == 1 then Point(c.x + p.x, c.y + p.y)
    else if k == 2 then Point(c.x - p.x, c.y + p.y)
    else if k == 3 then Point(c.x - p.y, c.y + p.x)
    else if k == 4 then Point(c.x - p.y, c.y - p.x)
    else if k == 5 then Point(c.x - p.x, c.y - p.y)
    else if k == 6 then Point(c.x + p.x, c.y - p.y)
    else Point(c.x + p.y, c.y - p.x)
  }

  /** Even lists are appended to: the images of the walk in order. */
  function Forward(k: nat, c: Point, t: seq<Point>): seq<Point>
  {
    if t == [] then [] else Forward(k, c, t[..|t| - 1]) + [Image(k, c, t[|t| - 1])]
  }

  /** Odd lists are prepended to: the images of the walk after its first
    * point, last first. */
  function Backward(k: nat, c: Point, t: seq<Point>): seq<Point>
  {
    if |t| <= 1 then [] else [Image(k, c, t[|t| - 1])] + Backward(k, c, t[..|t| - 1])
  }

  /** The coordinate lists of drawcircle after walking t. */
  function Outline(c: Point, t: seq<Point>): (r: seq<seq<Point>>)
    ensures |r| == 8
  {
    seq(8, k requires 0 <= k < 8 => if k % 2 == 0 then Forward(k, c, t) else Backward(k, c, t))
  }

  /** drawcircle for an unfilled circle: the CoordList(8) it fills for one
    * centre. err is a float with quarter fractions; the model keeps 4*err. */
  method DrawCircle(c: Point, radius: int) returns (cl: CoordList)
    ensures fresh(cl) && cl.coordList == Outline(c, Octant(radius))
  {
    cl := new CoordList(8);
    var x := 0;
    var y := radius;
    var err4 := 5 - radius * 4;
    PlotStart(cl, c, radius);
    ghost var t := [Point(0, radius)];
    WalkStart(radius);
    while x < y
      invariant cl.coordList == Outline(c, t)
      invariant CircleState(radius, t, x, y, err4)
      decreases y - x
    {
      CircleNext(radius, t, x, y, err4);
      x := x + 1;
      if err4 < 0 {
        err4 := err4 + 4 * (2 * x + 1);
      } else {
        y := y - 1;
        err4 := err4 + 4 * (2 * (x - y) + 1);
      }
      PlotStep(cl, c, t, x, y);
      t := t + [Point(x, y)];
    }
    WalkDone(radius, t, x, y, err4);
  }

  /** The walk so far is t, it ends at (x, y), err4 is the decision variable
    * there and the rest of the octant is still to come. */
  ghost predicate CircleState(r: int, t: seq<Point>, x: int, y: int, err4: int)
  {
    |t| > 0 && t[|t| - 1] == Point(x, y) && err4 == Decision(r, Point(x, y)) &&
    t + After(r, Point(x, y)) == Octant(r)
  }

  lemma {:induction false} WalkStart(r: int)
    ensures CircleState(r, [Point(0, r)], 0, r, 5 - r * 4)
  {
    assert Octant(r) == [Point(0, r)] + After(r, Point(0, r));
  }

  lemma {:induction false} WalkDone(r: int, t: seq<Point>, x: int, y: int, err4: int)
    requires CircleState(r, t, x, y, err4) && x >= y
    ensures t == Octant(r)
  {
    assert t + [] == t;
  }

  /** One turn of the loop of drawcircle and fillcircle, as the source writes
    * it, moves the state to the next point of the octant. */
  lemma {:induction false} CircleNext(r: int, t: seq<Point>, x: int, y: int, err4: int)
    requires CircleState(r, t, x, y, err4) && x < y
    ensures var x1 := x + 1;
            if err4 < 0 then CircleState(r, t + [Point(x1, y)], x1, y, err4 + 4 * (2 * x1 + 1))
            else CircleState(r, t + [Point(x1, y - 1)], x1, y - 1, err4 + 4 * (2 * (x1 - (y - 1)) + 1))
  {
    NextDecision(r, Point(x, y));
    AfterStep(r, Point(x, y), t);
  }

  /** The four opening points of drawcircle. */
  method PlotStart(cl: CoordList, c: Point, r: int)
    requires cl.coordList == seq(8, _ => [])
    modifies cl
    ensures cl.coordList == Outline(c, [Point(0, r)])
  {
    cl.Append(0, Point(c.x + r, c.y));
    cl.Append(2, Point(c.x, c.y + r));
    cl.Append(4, Point(c.x - r, c.y));
    cl.Append(6, Point(c.x, c.y - r));
    OutlineStart(c, r, cl.coordList);
  }

  /** The eight points one turn of drawcircle's loop adds. */
  method PlotStep(cl: CoordList, c: Point, ghost t: seq<Point>, x: int, y: int)
    requires |t| > 0 && cl.coordList == Outline(c, t)
    modifies cl
    ensures cl.coordList == Outline(c, t + [Point(x, y)])
  {
    var x0, y0 := c.x, c.y;
    ghost var q := Point(x, y);
    assert Image(0, c, q) == Point(x0 + y, y0 + x) && Image(1, c, q) == Point(x0 + x, y0 + y);
    assert Image(2, c, q) == Point(x0 - x, y0 + y) && Image(3, c, q) == Point(x0 - y, y0 + x);
    assert Image(4, c, q) == Point(x0 - y, y0 - x) && Image(5, c, q) == Point(x0 - x, y0 - y);
    assert Image(6, c, q) == Point(x0 + x, y0 - y) && Image(7, c, q) == Point(x0 + y, y0 - x);
    ghost var s0 := cl.coordList;
    cl.Append(0, Point(x0 + y, y0 + x));
    ghost var s1 := cl.coordList;
    cl.Prepend(1, Point(x0 + x, y0 + y));
    ghost var s2 := cl.coordList;
    cl.Append(2, Point(x0 - x, y0 + y));
    ghost var s3 := cl.coordList;
    cl.Prepend(3, Point(x0 - y, y0 + x));
    ghost var s4 := cl.coordList;
    cl.Append(4, Point(x0 - y, y0 - x));
    ghost var s5 := cl.coordList;
    cl.Prepend(5, Point(x0 - x, y0 - y));
    ghost var s6 := cl.coordList;
    cl.Append(6, Point(x0 + x, y0 - y));
    ghost var s7 := cl.coordList;
    cl.Prepend(7, Point(x0 + y, y0 - x));
    OutlineStep(c, t, q, s0, s1, s2, s3, s4, s5, s6, s7, cl.coordList);
  }

  /** List k of `after` has received its point of the turn; the others are
    * those of `before`. */
  predicate Extended(c: Point, q: Point, before: seq<seq<Point>>, after: seq<seq<Point>>, k: nat)
  {
    k < |before| == 8 &&
    after == before[k := if k % 2 == 0 then before[k] + [Image(k, c, q)] else [Image(k, c, q)] + before[k]]
  }

  /** One turn of drawcircle's loop extends every list by the images of the
    * new octant point. */
  lemma {:induction false} OutlineStep(c: Point, t: seq<Point>, q: Point,
                                       s0: seq<seq<Point>>, s1: seq<seq<Point>>, s2: seq<seq<Point>>,
                                       s3: seq<seq<Point>>, s4: seq<seq<Point>>, s5: seq<seq<Point>>,
                                       s6: seq<seq<Point>>, s7: seq<seq<Point>>, s8: seq<seq<Point>>)
    requires |t| > 0 && s0 == Outline(c, t)
    requires Extended(c, q, s0, s1, 0) && Extended(c, q, s1, s2, 1) && Extended(c, q, s2, s3, 2) && Extended(c, q, s3, s4, 3)
    requires Extended(c, q, s4, s5, 4) && Extended(c, q, s5, s6, 5) && Extended(c, q, s6, s7, 6) && Extended(c, q, s7, s8, 7)
    ensures s8 == Outline(c, t + [q])
  {
    var ss := [s0, s1, s2, s3, s4, s5, s6, s7, s8];
    assert forall i | 0 <= i < 8 :: Extended(c, q, ss[i], ss[i + 1], i);
    forall k | 0 <= k < 8
      ensures s8[k] == Outline(c, t + [q])[k]
    {
      OutlineStepAt(c, t, q, ss, k);
    }
  }

  lemma {:induction false} OutlineStepAt(c: Point, t: seq<Point>, q: Point, s: seq<seq<seq<Point>>>, k: nat)
    requires |t| > 0 && |s| == 9 && k < 8 && s[0] == Outline(c, t)
    requires forall i | 0 <= i < 8 :: Extended(c, q, s[i], s[i + 1], i)
    ensures |s[8]| == 8 && s[8][k] == Outline(c, t + [q])[k]
  {
    ForwardSnoc(k, c, t, q);
    BackwardSnoc(k, c, t, q);
    StatesKeep(c, q, s, k, 8);
    StatesKeep(c, q, s, k, k);
  }

  /** The lists one turn has not reached yet, or has passed, stay put. */
  lemma {:induction false} StatesKeep(c: Point, q: Point, s: seq<seq<seq<Point>>>, k: nat, j: nat)
    requires |s| == 9 && k < 8 && j <= 8
    requires forall i | 0 <= i < 8 :: Extended(c, q, s[i], s[i + 1], i)
    ensures |s[0]| == 8 && |s[k + 1]| == 8 && |s[j]| == 8
    ensures k < j ==> s[j][k] == s[k + 1][k]
    ensures j <= k ==> s[j][k] == s[0][k]
    decreases j
  {
    assert Extended(c, q, s[0], s[1], 0);
    assert Extended(c, q, s[k], s[k + 1], k);
    if j > 0 {
      StatesKeep(c, q, s, k, j - 1);
      assert Extended(c, q, s[j - 1], s[j], j - 1);
    }
  }

  lemma {:induction false} OutlineStart(c: Point, r: int, ls: seq<seq<Point>>)
    requires ls == seq(8, _ => [])[0 := [] + [Point(c.x + r, c.y)]][2 := [] + [Point(c.x, c.y + r)]][4 := [] + [Point(c.x - r, c.y)]][6 := [] + [Point(c.x, c.y - r)]]
    ensures ls == Outline(c, [Point(0, r)])
  {
    forall k | 0 <= k < 8
      ensures ls[k] == Outline(c, [Point(0, r)])[k]
    {
      assert [Point(0, r)][..0] == [];
      assert Forward(k, c, [Point(0, r)]) == [Image(k, c, Point(0, r))];
      assert Backward(k, c, [Point(0, r)]) == [];
    }
  }

  /** The incremental update of err makes the same choice as the midpoint
    * test and keeps err equal to the decision variable. */
  lemma {:induction false} NextDecision(r: int, p: Point)
    ensures var x1 := p.x + 1;
            if Decision(r, p) < 0 then
              Next(r, p) == Point(x1, p.y) && Decision(r, Next(r, p)) == Decision(r, p) + 4 * (2 * x1 + 1)
            else
              Next(r, p) == Point(x1, p.y - 1) && Decision(r, Next(r, p)) == Decision(r, p) + 4 * (2 * (x1 - (p.y - 1)) + 1)
  {
    Square(p.x);
    Square(p.y);
  }

  lemma {:induction false} AfterStep(r: int, p: Point, t: seq<Point>)
    requires p.x < p.y && t + After(r, p) == Octant(r)
    ensures (t + [Next(r, p)]) + After(r, Next(r, p)) == Octant(r)
  {
    assert After(r, p) == [Next(r, p)] + After(r, Next(r, p));
  }

  lemma {:induction false} ForwardSnoc(k: nat, c: Point, t: seq<Point>, q: Point)
    ensures Forward(k, c, t + [q]) == Forward(k, c, t) + [Image(k, c, q)]
  {
    assert (t + [q])[..|t|] == t;
  }

  lemma {:induction false} BackwardSnoc(k: nat, c: Point, t: seq<Point>, q: Point)
    requires |t| > 0
    ensures Backward(k, c, t + [q]) == [Image(k, c, q)] + Backward(k, c, t)
  {
    assert (t + [q])[..|t|] == t;
  }

  // ---------------------------------------------------------------------
  // How close the octant stays to the circle

  // Squares are written out over x*x, y*y and r*r so that the solver can
  // treat those products as atoms.

  /** The midpoint above (x, y) is outside the circle or on it. */
  predicate Above(r: int, p: Point)
  {
    4 * (p.x * p.x) + 4 * (p.y * p.y) + 4 * p.y + 1 >= 4 * (r * r)
  }

  /** The midpoint below (x, y) is inside the circle. */
  predicate Below(r: int, p: Point)
  {
    4 * (p.x * p.x) + 4 * (p.y * p.y) - 4 * p.y + 1 < 4 * (r * r)
  }

  lemma {:induction false} Square(n: int)
    ensures (n + 1) * (n + 1) == n * n + 2 * n + 1
    ensures (n - 1) * (n - 1) == n * n - 2 * n + 1
  {
  }

  /** Below, up to the rounding the last step across the diagonal makes. */
  predicate NearlyBelow(r: int, p: Point)
  {
    4 * (p.x * p.x) + 4 * (p.y * p.y) - 4 * p.y + 1 < 4 * (r * r) + 4
  }

  /** What holds at every point of the walk. */
  predicate OnWalk(r: int, p: Point)
  {
    0 <= p.x <= r && 0 <= p.y <= r && p.x - 1 <= p.y &&
    Above(r, p) && NearlyBelow(r, p) && (p.x < p.y ==> Below(r, p))
  }

  lemma {:induction false} OnWalkStart(r: int)
    requires r >= 0
    ensures OnWalk(r, Point(0, r))
  {
  }

  lemma {:induction false} OnWalkNext(r: int, p: Point)
    requires OnWalk(r, p) && p.x < p.y
    ensures OnWalk(r, Next(r, p))
  {
    var x, y := p.x, p.y;
    Square(x);
    Square(y);
    WalkStep(x, y, r, x * x, y * y, r * r, (x + 1) * (x + 1), (y - 1) * (y - 1));
    if 4 * ((x + 1) * (x + 1)) + 4 * (y * y) - 4 * y + 1 < 4 * (r * r) {
      assert Next(r, p) == Point(x + 1, y);
    } else {
      assert Next(r, p) == Point(x + 1, y - 1);
    }
  }

  /** OnWalkNext over the squares as plain numbers: X, Y and R stand for
    * x * x, y * y and r * r, X1 and Y1 for the squares after the step. */
  lemma {:induction false} WalkStep(x: int, y: int, r: int, X: int, Y: int, R: int, X1: int, Y1: int)
    requires X1 == X + 2 * x + 1 && Y1 == Y - 2 * y + 1
    requires 0 <= x < y <= r && X >= 0
    requires 4 * X + 4 * Y + 4 * y + 1 >= 4 * R && 4 * X + 4 * Y - 4 * y + 1 < 4 * R
    ensures 4 * X1 + 4 * Y - 4 * y + 1 < 4 * R ==>
              x + 1 <= r && 4 * X1 + 4 * Y + 4 * y + 1 >= 4 * R
    ensures 4 * X1 + 4 * Y - 4 * y + 1 >= 4 * R ==>
              0 <= y - 1 && x <= y - 1 && 4 * X1 + 4 * Y1 + 4 * (y - 1) + 1 >= 4 * R &&
              4 * X1 + 4 * Y1 - 4 * (y - 1) + 1 < 4 * R + 4 &&
              (x + 1 < y - 1 ==> 4 * X1 + 4 * Y1 - 4 * (y - 1) + 1 < 4 * R)
  {
  }

  lemma {:induction false} OnWalkFrom(r: int, p: Point)
    requires OnWalk(r, p)
    ensures forall q | q in OctantFrom(r, p) :: OnWalk(r, q)
    decreases p.y - p.x
  {
    if p.x < p.y {
      OnWalkNext(r, p);
      OnWalkFrom(r, Next(r, p));
    }
  }

  /** Every point of the octant lies in the first octant's square and within
    * y of the circle: |x^2 + y^2 - r^2| <= y. */
  lemma {:induction false} OctantNearCircle(r: int, q: Point)
    requires r >= 0 && q in Octant(r)
    ensures 0 <= q.x <= r && 0 <= q.y <= r && q.x - 1 <= q.y
    ensures -q.y <= q.x * q.x + q.y * q.y - r * r <= q.y
  {
    OnWalkStart(r);
    OnWalkFrom(r, Point(0, r));
    assert OnWalk(r, q);
  }

  /** The walk moves one column right at each step and down at most one row,
    * and stops once it has crossed the diagonal. */
  lemma {:induction false} OctantSteps(r: int, i: nat)
    requires i + 1 < |Octant(r)|
    ensures Octant(r)[i + 1].x == Octant(r)[i].x + 1
    ensures Octant(r)[i].y - 1 <= Octant(r)[i + 1].y <= Octant(r)[i].y
    ensures Octant(r)[i].x < Octant(r)[i].y
  {
    OctantFromSteps(r, Point(0, r), i);
  }

  lemma {:induction false} OctantFromSteps(r: int, p: Point, i: nat)
    requires i + 1 < |OctantFrom(r, p)|
    ensures OctantFrom(r, p)[i + 1] == Next(r, OctantFrom(r, p)[i])
    ensures OctantFrom(r, p)[i].x < OctantFrom(r, p)[i].y
    decreases p.y - p.x
  {
    if i > 0 {
      OctantFromSteps(r, Next(r, p), i - 1);
    }
  }

  // ---------------------------------------------------------------------
  // fillcircle

  /** The four hline calls of one turn of fillcircle's loop at (x, y). */
  function Quad(c: Point, q: Point): seq<Span>
  {
    [Span(c.y + q.y, c.x - q.x, c.x + q.x), Span(c.y - q.y, c.x - q.x, c.x + q.x),
     Span(c.y + q.x, c.x - q.y, c.x + q.y), Span(c.y - q.x, c.x - q.y, c.x + q.y)]
  }

  /** The hline calls of fillcircle after walking t: the middle row for the
    * first point, then four rows for each later one. */
  function Disc(c: Point, t: seq<Point>): (d: seq<Span>)
    ensures |d| == if t == [] then 0 else 4 * |t| - 3
  {
    if t == [] then []
    else if |t| == 1 then [Span(c.y, c.x - t[0].y, c.x + t[0].y)]
    else Disc(c, t[..|t| - 1]) + Quad(c, t[|t| - 1])
  }

  /** fillcircle for one centre: it sets the fill box to the circle's square
    * and makes the hline calls of Disc. err is an integer here; it starts at
    * (5 - 4r) // 4 = 1 - r and takes the same branches as drawcircle's
    * float err, so both walk the same octant. */
  method FillCircle(fillmode: FillMode, c: Point, radius: int) returns (spans: seq<Span>)
    modifies fillmode
    ensures fillmode.bounds == Bounds(c.x - radius, c.y - radius, c.x + radius, c.y + radius)
    ensures spans == Disc(c, Octant(radius))
  {
    var x0, y0 := c.x, c.y;
    var x := 0;
    var y := radius;
    var err := FloorDiv(5 - radius * 4, 4);
    assert err == 1 - radius;
    fillmode.bounds := Bounds(x0 - radius, y0 - radius, x0 + radius, y0 + radius);
    spans := [Span(y0, x0 - y, x0 + y)];
    ghost var t := [Point(0, radius)];
    ghost var err4 := 4 * err + 1;
    WalkStart(radius);
    while x < y
      invariant spans == Disc(c, t)
      invariant fillmode.bounds == Bounds(x0 - radius, y0 - radius, x0 + radius, y0 + radius)
      invariant err4 == 4 * err + 1
      invariant CircleState(radius, t, x, y, err4)
      decreases y - x
    {
      CircleNext(radius, t, x, y, err4);
      x := x + 1;
      if err < 0 {
        err := err + 2 * x + 1;
        err4 := err4 + 4 * (2 * x + 1);
      } else {
        y := y - 1;
        err := err + 2 * (x - y) + 1;
        err4 := err4 + 4 * (2 * (x - y) + 1);
      }
      var quad := [Span(y0 + y, x0 - x, x0 + x), Span(y0 - y, x0 - x, x0 + x),
                   Span(y0 + x, x0 - y, x0 + y), Span(y0 - x, x0 - y, x0 + y)];
      assert quad == Quad(c, Point(x, y));
      DiscStep(c, t, Point(x, y));
      spans := spans + quad;
      t := t + [Point(x, y)];
    }
    WalkDone(radius, t, x, y, err4);
  }

  lemma {:induction false} DiscStep(c: Point, t: seq<Point>, q: Point)
    requires |t| > 0
    ensures Disc(c, t + [q]) == Disc(c, t) + Quad(c, q)
  {
    assert (t + [q])[..|t|] == t;
  }

  /** Every hline call of fillcircle stays inside the bounds it sets, and
    * runs left to right. */
  lemma {:induction false} DiscInBounds(c: Point, r: int, s: Span)
    requires r >= 0 && s in Disc(c, Octant(r))
    ensures c.y - r <= s.y <= c.y + r && c.x - r <= s.x1 <= s.x2 <= c.x + r
  {
    DiscMembers(c, Octant(r), s);
    var q :| q in Octant(r) && (s == Span(c.y, c.x - q.y, c.x + q.y) || s in Quad(c, q));
    OctantNearCircle(r, q);
  }

  lemma {:induction false} DiscMembers(c: Point, t: seq<Point>, s: Span)
    requires s in Disc(c, t)
    ensures exists q :: q in t && (s == Span(c.y, c.x - q.y, c.x + q.y) || s in Quad(c, q))
  {
    if |t| > 1 {
      if s in Disc(c, t[..|t| - 1]) {
        DiscMembers(c, t[..|t| - 1], s);
        var q :| q in t[..|t| - 1] && (s == Span(c.y, c.x - q.y, c.x + q.y) || s in Quad(c, q));
        assert q in t;
      } else {
        assert t[|t| - 1] in t;
      }
    } else {
      assert t[0] in t;
    }
  }
}
