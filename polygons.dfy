// fillpoly (prim.py:1441-1495) for one copy of the polygon: the bounds it
// installs, the scanline intersections of its edges, their sorting and
// pairing into the spans it hands to hline.

module Polygons {
  import opened Support
  import opened Geometry

  // ---------------------------------------------------------------------
  // Extremes of the vertex list

  function Xs(c: seq<Point>): (r: seq<int>)
    ensures |r| == |c| && forall k | 0 <= k < |c| :: r[k] == c[k].x
  {
    seq(|c|, k requires 0 <= k < |c| => c[k].x)
  }

  function Ys(c: seq<Point>): (r: seq<int>)
    ensures |r| == |c| && forall k | 0 <= k < |c| :: r[k] == c[k].y
  {
    seq(|c|, k requires 0 <= k < |c| => c[k].y)
  }

  /** Python's min over a non-empty list. */
  function MinOf(s: seq<int>): (m: int)
    requires |s| > 0
    ensures (exists k | 0 <= k < |s| :: s[k] == m) && forall k | 0 <= k < |s| :: m <= s[k]
  {
    if |s| == 1 then s[0] else Min(MinOf(s[..|s| - 1]), s[|s| - 1])
  }

  /** Python's max over a non-empty list. */
  function MaxOf(s: seq<int>): (m: int)
    requires |s| > 0
    ensures (exists k | 0 <= k < |s| :: s[k] == m) && forall k | 0 <= k < |s| :: s[k] <= m
  {
    if |s| == 1 then s[0] else Max(MaxOf(s[..|s| - 1]), s[|s| - 1])
  }

  /** The bounds fillpoly installs for the shape. */
  function PolyBounds(c: seq<Point>): Bounds
    requires |c| > 0
  {
    Bounds(MinOf(Xs(c)), MinOf(Ys(c)), MaxOf(Xs(c)), MaxOf(Ys(c)))
  }

  /** The number of vertices fillpoly walks: a last vertex equal to the first
    * is dropped. */
  function Ring(c: seq<Point>): (n: nat)
    requires |c| > 0
    ensures 0 < n <= |c|
  {
    if |c| > 1 && c[0] == c[|c| - 1] then |c| - 1 else |c|
  }

  // ---------------------------------------------------------------------
  // Edges and their crossings with a scanline

  /** A non-horizontal edge, oriented so that y1 < y2. */
  datatype Edge = Edge(x1: int, y1: int, x2: int, y2: int)

  /** Edge i of the ring of n vertices: edge 0 closes the ring from vertex
    * n-1 to vertex 0, edge i > 0 runs from vertex i-1 to vertex i. None for
    * a horizontal edge. */
  function EdgeAt(c: seq<Point>, n: nat, i: nat): (e: Option<Edge>)
    requires 0 < n <= |c| && i < n
    ensures e.Some? ==> e.value.y1 < e.value.y2
  {
    var p := if i == 0 then c[n - 1] else c[i - 1];
    var q := c[i];
    if p.y < q.y then Some(Edge(p.x, p.y, q.x, q.y))
    else if p.y > q.y then Some(Edge(q.x, q.y, p.x, p.y))
    else None
  }

  /** Where an edge meets scanline y: half-open [y1, y2) on every line and
    * also (y1, y2] on the bottom line maxy; floor division as in Python. */
  function Crossing(e: Edge, y: int, maxy: int): Option<int>
    requires e.y1 < e.y2
  {
    if (e.y1 <= y < e.y2) || (y == maxy && e.y1 < y <= e.y2) then
      Some(FloorDiv((y - e.y1) * (e.x2 - e.x1), e.y2 - e.y1) + e.x1)
    else None
  }

  function CrossingOf(c: seq<Point>, n: nat, i: nat, y: int, maxy: int): seq<int>
    requires 0 < n <= |c| && i < n
  {
    var e := EdgeAt(c, n, i);
    if e.None? then [] else
      var x := Crossing(e.value, y, maxy);
      if x.None? then [] else [x.value]
  }

  /** polyints after the first k edges of the ring. */
  function Ints(c: seq<Point>, n: nat, y: int, maxy: int, k: nat): seq<int>
    requires 0 < n <= |c| && k <= n
  {
    if k == 0 then [] else Ints(c, n, y, maxy, k - 1) + CrossingOf(c, n, k - 1, y, maxy)
  }

  /** The intersection loop of fillpoly for scanline y. */
  method Intersections(c: seq<Point>, n: nat, y: int, maxy: int) returns (polyints: seq<int>)
    requires 0 < n <= |c|
    ensures polyints == Ints(c, n, y, maxy, n)
  {
    polyints := [];
    var i := 0;
    while i < n
      invariant i <= n && polyints == Ints(c, n, y, maxy, i)
    {
      var found := EdgeCrossing(c, n, i, y, maxy);
      polyints := polyints + found;
      i := i + 1;
    }
  }

  /** One turn of the intersection loop: orient edge i downwards, skip it
    * when horizontal, and keep its crossing with scanline y if it has one. */
  method EdgeCrossing(c: seq<Point>, n: nat, i: nat, y: int, maxy: int) returns (found: seq<int>)
    requires 0 < n <= |c| && i < n
    ensures found == CrossingOf(c, n, i, y, maxy)
  {
    var ind1, ind2;
    if i == 0 {
      ind1, ind2 := n - 1, 0;
    } else {
      ind1, ind2 := i - 1, i;
    }
    var y1, y2 := c[ind1].y, c[ind2].y;
    var x1, x2;
    if y1 < y2 {
      x1, x2 := c[ind1].x, c[ind2].x;
    } else if y1 > y2 {
      y2, y1 := c[ind1].y, c[ind2].y;
      x2, x1 := c[ind1].x, c[ind2].x;
    } else {
      return [];
    }
    assert EdgeAt(c, n, i) == Some(Edge(x1, y1, x2, y2));
    found := [];
    if y >= y1 && y < y2 {
      found := [FloorDiv((y - y1) * (x2 - x1), y2 - y1) + x1];
    } else if y == maxy && y > y1 && y <= y2 {
      found := [FloorDiv((y - y1) * (x2 - x1), y2 - y1) + x1];
    }
  }

  lemma MulBetween(t: int, d: int, w: int)
    requires 0 <= t <= d
    ensures w >= 0 ==> 0 <= t * w <= d * w
    ensures w < 0 ==> d * w <= t * w <= 0
  {
    assert d * w - t * w == (d - t) * w;
  }

  /** q * d <= b * d with d > 0 gives q <= b. */
  lemma MulCancel(q: int, b: int, d: int)
    requires d > 0 && q * d <= b * d
    ensures q <= b
  {
    assert (q - b) * d <= 0;
  }

  /** A crossing lies between the x coordinates of its edge's ends. */
  lemma CrossingBetween(e: Edge, y: int, maxy: int)
    requires e.y1 < e.y2 && Crossing(e, y, maxy).Some?
    ensures Min(e.x1, e.x2) <= Crossing(e, y, maxy).value <= Max(e.x1, e.x2)
  {
    var d, t, w := e.y2 - e.y1, y - e.y1, e.x2 - e.x1;
    var q := FloorDiv(t * w, d);
    assert Crossing(e, y, maxy).value == q + e.x1;
    MulBetween(t, d, w);
    if w >= 0 {
      MulCancel(q, w, d);
      MulCancel(-1, q, d);
    } else {
      MulCancel(q, 0, d);
      MulCancel(w - 1, q, d);
    }
  }

  // ---------------------------------------------------------------------
  // An even number of crossings on every scanline

  /** Whether a vertex lies beyond scanline y: strictly below it, or on or
    * below it for the bottom line maxy. */
  predicate Beyond(v: Point, y: int, maxy: int)
  {
    if y == maxy then v.y >= y else v.y > y
  }

  function B(b: bool): nat
  {
    if b then 1 else 0
  }

  /** An edge crosses the scanline exactly when its ends lie on different
    * sides of it. */
  lemma CrossingSides(c: seq<Point>, n: nat, i: nat, y: int, maxy: int)
    requires 0 < n <= |c| && i < n
    requires forall k | 0 <= k < |c| :: c[k].y <= maxy
    ensures |CrossingOf(c, n, i, y, maxy)| ==
            B(Beyond(if i == 0 then c[n - 1] else c[i - 1], y, maxy) != Beyond(c[i], y, maxy))
  {
  }

  lemma {:induction false} IntsParity(c: seq<Point>, n: nat, y: int, maxy: int, k: nat)
    requires 0 < n <= |c| && 1 <= k <= n
    requires forall j | 0 <= j < |c| :: c[j].y <= maxy
    ensures (|Ints(c, n, y, maxy, k)| % 2 == 1) ==
            ((Beyond(c[n - 1], y, maxy) != Beyond(c[0], y, maxy)) != (Beyond(c[0], y, maxy) != Beyond(c[k - 1], y, maxy)))
  {
    CrossingSides(c, n, k - 1, y, maxy);
    var here := CrossingOf(c, n, k - 1, y, maxy);
    if k == 1 {
      assert Ints(c, n, y, maxy, 1) == here;
    } else {
      IntsParity(c, n, y, maxy, k - 1);
      var prev := Ints(c, n, y, maxy, k - 1);
      assert Ints(c, n, y, maxy, k) == prev + here;
      var bp, bk := Beyond(c[k - 2], y, maxy), Beyond(c[k - 1], y, maxy);
      assert |here| == B(bp != bk);
      assert |Ints(c, n, y, maxy, k)| == |prev| + |here|;
      ParityAdd(|prev|, |here|);
    }
  }

  lemma {:induction false} ParityAdd(a: nat, b: nat)
    requires b <= 1
    ensures ((a + b) % 2 == 1) == ((a % 2 == 1) != (b == 1))
  {
  }

  /** Every scanline meets the closed ring an even number of times, so the
    * pairing of fillpoly never runs off the end of polyints. */
  lemma IntsEven(c: seq<Point>, n: nat, y: int, maxy: int)
    requires 0 < n <= |c|
    requires forall j | 0 <= j < |c| :: c[j].y <= maxy
    ensures |Ints(c, n, y, maxy, n)| % 2 == 0
  {
    IntsParity(c, n, y, maxy, n);
  }

  /** Every crossing lies within the x extent of the vertices. */
  lemma {:induction false} IntsWithin(c: seq<Point>, n: nat, y: int, maxy: int, k: nat)
    requires 0 < n <= |c| && k <= n
    ensures forall x | x in Ints(c, n, y, maxy, k) :: MinOf(Xs(c)) <= x <= MaxOf(Xs(c))
  {
    if k > 0 {
      IntsWithin(c, n, y, maxy, k - 1);
      var e := EdgeAt(c, n, k - 1);
      if e.Some? && Crossing(e.value, y, maxy).Some? {
        CrossingBetween(e.value, y, maxy);
        var p := if k - 1 == 0 then c[n - 1] else c[k - 2];
        assert Xs(c)[if k - 1 == 0 then n - 1 else k - 2] == p.x;
        assert Xs(c)[k - 1] == c[k - 1].x;
      }
    }
  }

  // ---------------------------------------------------------------------
  // polyints.sort()

  predicate SortedInts(s: seq<int>)
  {
    forall k | 0 <= k < |s| - 1 :: s[k] <= s[k + 1]
  }

  function InsertInt(s: seq<int>, v: int): seq<int>
  {
    if s == [] || v <= s[0] then [v] + s else [s[0]] + InsertInt(s[1..], v)
  }

  /** Python's list sort on integers, as an insertion sort. */
  function SortInts(s: seq<int>): seq<int>
  {
    if s == [] then [] else InsertInt(SortInts(s[..|s| - 1]), s[|s| - 1])
  }

  lemma {:induction false} InsertIntProps(s: seq<int>, v: int)
    requires SortedInts(s)
    ensures SortedInts(InsertInt(s, v)) && multiset(InsertInt(s, v)) == multiset(s) + multiset{v}
    ensures |InsertInt(s, v)| == |s| + 1
    ensures InsertInt(s, v)[0] == if s == [] || v <= s[0] then v else s[0]
  {
    if s != [] && v > s[0] {
      InsertIntProps(s[1..], v);
      assert s == [s[0]] + s[1..];
    }
  }

  lemma {:induction false} SortIntsProps(s: seq<int>)
    ensures SortedInts(SortInts(s)) && multiset(SortInts(s)) == multiset(s) && |SortInts(s)| == |s|
  {
    if s != [] {
      SortIntsProps(s[..|s| - 1]);
      InsertIntProps(SortInts(s[..|s| - 1]), s[|s| - 1]);
      assert s == s[..|s| - 1] + [s[|s| - 1]];
    }
  }

  // ---------------------------------------------------------------------
  // The spans

  /** hline on each pair (polyints[i], polyints[i+1]), i = 0, 2, 4, ...;
    * the lists it is applied to have even length (RowIntsEven). */
  function Pairs(y: int, s: seq<int>): seq<Span>
    decreases |s|
  {
    if |s| < 2 then [] else Pairs(y, s[..|s| - 2]) + [Span(y, s[|s| - 2], s[|s| - 1])]
  }

  /** The sorted crossings of scanline y. */
  function RowInts(c: seq<Point>, y: int): seq<int>
    requires |c| > 0
  {
    SortInts(Ints(c, Ring(c), y, MaxOf(Ys(c)), Ring(c)))
  }

  /** The sorted crossings of every scanline come in pairs. */
  lemma RowIntsEven(c: seq<Point>, y: int)
    requires |c| > 0
    ensures |RowInts(c, y)| % 2 == 0
  {
    SortIntsProps(Ints(c, Ring(c), y, MaxOf(Ys(c)), Ring(c)));
    IntsEven(c, Ring(c), y, MaxOf(Ys(c)));
  }

  /** The spans of scanlines lo .. hi-1. */
  function Rows(c: seq<Point>, lo: int, hi: int): seq<Span>
    requires |c| > 0
    decreases hi - lo
  {
    if hi <= lo then [] else Rows(c, lo, hi - 1) + Pairs(hi - 1, RowInts(c, hi - 1))
  }

  /** Every span fillpoly draws. */
  function PolySpans(c: seq<Point>): seq<Span>
    requires |c| > 0
  {
    Rows(c, MinOf(Ys(c)), MaxOf(Ys(c)) + 1)
  }

  /** fillpoly for one copy of the shape, with the hline calls collected as
    * spans: nothing for an empty vertex list; otherwise the bounds become
    * the vertices' extent and the spans are those of every scanline from
    * the top vertex to the bottom one. */
  method FillPoly(fillmode: FillMode, coords: seq<Point>) returns (spans: seq<Span>)
    modifies fillmode
    ensures coords == [] ==> spans == [] && fillmode.bounds == old(fillmode.bounds)
    ensures coords != [] ==> fillmode.bounds == PolyBounds(coords) && spans == PolySpans(coords)
  {
    var n := |coords|;
    spans := [];
    if n == 0 {
      return;
    }
    var minx, maxx := MinOf(Xs(coords)), MaxOf(Xs(coords));
    var miny, maxy := MinOf(Ys(coords)), MaxOf(Ys(coords));
    fillmode.bounds := Bounds(minx, miny, maxx, maxy);
    if n > 1 && coords[0].x == coords[n - 1].x && coords[0].y == coords[n - 1].y {
      n := n - 1;
    }
    assert n == Ring(coords);
    spans := ScanRows(coords, n, miny, maxy);
  }

  /** The scanning loop of fillpoly, from the top vertex to the bottom one. */
  method ScanRows(coords: seq<Point>, n: nat, miny: int, maxy: int) returns (spans: seq<Span>)
    requires |coords| > 0 && n == Ring(coords) && miny <= maxy && maxy == MaxOf(Ys(coords))
    ensures spans == Rows(coords, miny, maxy + 1)
  {
    spans := [];
    var y := miny;
    while y < maxy + 1
      invariant miny <= y <= maxy + 1
      invariant spans == Rows(coords, miny, y)
    {
      var row := ScanRow(coords, n, y, maxy);
      assert Rows(coords, miny, y + 1) == Rows(coords, miny, y) + row;
      spans := spans + row;
      y := y + 1;
    }
  }

  /** One turn of the scanning loop: the spans of scanline y. */
  method ScanRow(coords: seq<Point>, n: nat, y: int, maxy: int) returns (row: seq<Span>)
    requires |coords| > 0 && n == Ring(coords) && maxy == MaxOf(Ys(coords))
    ensures row == Pairs(y, RowInts(coords, y))
  {
    var polyints := RowCrossings(coords, n, y, maxy);
    RowIntsEven(coords, y);
    row := EmitPairs(y, polyints);
  }

  /** The crossings of scanline y, sorted. */
  method RowCrossings(coords: seq<Point>, n: nat, y: int, maxy: int) returns (polyints: seq<int>)
    requires |coords| > 0 && n == Ring(coords) && maxy == MaxOf(Ys(coords))
    ensures polyints == RowInts(coords, y)
  {
    polyints := Intersections(coords, n, y, maxy);
    polyints := SortInts(polyints);
  }

  /** The pairing loop of fillpoly: one hline per pair of sorted crossings. */
  method EmitPairs(y: int, polyints: seq<int>) returns (row: seq<Span>)
    requires |polyints| % 2 == 0
    ensures row == Pairs(y, polyints)
  {
    row := [];
    var i := 0;
    while i < |polyints|
      invariant i % 2 == 0 && i <= |polyints|
      invariant row == Pairs(y, polyints[..i])
    {
      assert polyints[..i + 2][..i] == polyints[..i];
      row := row + [Span(y, polyints[i], polyints[i + 1])];
      i := i + 2;
    }
    assert polyints[..i] == polyints;
  }

  // ---------------------------------------------------------------------
  // Everything drawn stays inside the bounds

  lemma {:induction false} PairsWithin(y: int, s: seq<int>, lo: int, hi: int)
    requires |s| % 2 == 0 && SortedInts(s)
    requires forall k | 0 <= k < |s| :: lo <= s[k] <= hi
    ensures forall sp | sp in Pairs(y, s) :: sp.y == y && lo <= sp.x1 <= sp.x2 <= hi
  {
    if s != [] {
      PairsWithin(y, s[..|s| - 2], lo, hi);
    }
  }

  lemma {:induction false} RowsWithin(c: seq<Point>, lo: int, hi: int)
    requires |c| > 0
    ensures forall sp | sp in Rows(c, lo, hi) ::
              lo <= sp.y < hi && MinOf(Xs(c)) <= sp.x1 <= sp.x2 <= MaxOf(Xs(c))
    decreases hi - lo
  {
    if hi > lo {
      RowsWithin(c, lo, hi - 1);
      RowIntsWithin(c, hi - 1);
      RowIntsEven(c, hi - 1);
      PairsWithin(hi - 1, RowInts(c, hi - 1), MinOf(Xs(c)), MaxOf(Xs(c)));
    }
  }

  /** The sorted crossings of a scanline are sorted and within the x extent. */
  lemma RowIntsWithin(c: seq<Point>, y: int)
    requires |c| > 0
    ensures SortedInts(RowInts(c, y))
    ensures forall k | 0 <= k < |RowInts(c, y)| :: MinOf(Xs(c)) <= RowInts(c, y)[k] <= MaxOf(Xs(c))
  {
    var raw := Ints(c, Ring(c), y, MaxOf(Ys(c)), Ring(c));
    var s := RowInts(c, y);
    SortIntsProps(raw);
    IntsWithin(c, Ring(c), y, MaxOf(Ys(c)), Ring(c));
    forall k | 0 <= k < |s|
      ensures MinOf(Xs(c)) <= s[k] <= MaxOf(Xs(c))
    {
      assert s[k] in multiset(s);
      assert s[k] in raw;
    }
  }

  /** Every span of fillpoly lies in the bounds it installs, left end first. */
  lemma PolySpansInBounds(c: seq<Point>)
    requires |c| > 0
    ensures forall sp | sp in PolySpans(c) ::
              PolyBounds(c).y1 <= sp.y <= PolyBounds(c).y2 && PolyBounds(c).x1 <= sp.x1 <= sp.x2 <= PolyBounds(c).x2
  {
    RowsWithin(c, MinOf(Ys(c)), MaxOf(Ys(c)) + 1);
  }
}
