// floodfill (prim.py:1353-1438) in SOLID mode for one seed: the stack-based
// 4-connected fill of the surface array, the fill bounds it grows and the
// scanline fragments it collects and collapses.

module FloodFill {
  import opened Support
  import opened Geometry
  import opened Fragments

  /** A picture as columns of pixels, g[x][y], like pygame's surfarray. */
  type Grid = seq<seq<int>>

  ghost function Snapshot(a: array2<int>): (g: Grid)
    reads a
    ensures |g| == a.Length0
    ensures forall i | 0 <= i < |g| :: |g[i]| == a.Length1
    ensures forall i, j | 0 <= i < a.Length0 && 0 <= j < a.Length1 :: g[i][j] == a[i, j]
  {
    seq(a.Length0, i requires 0 <= i < a.Length0 reads a => seq(a.Length1, j requires 0 <= j < a.Length1 reads a => a[i, j]))
  }

  predicate InGrid(g: Grid, p: Point)
  {
    0 <= p.x < |g| && 0 <= p.y < |g[p.x]|
  }

  /** p is on the grid and has colour c. */
  predicate Cell(g: Grid, c: int, p: Point)
  {
    InGrid(g, p) && g[p.x][p.y] == c
  }

  /** The four neighbours, in the order floodfill pushes them. */
  function Neighbours(p: Point): seq<Point>
  {
    [Point(p.x + 1, p.y), Point(p.x - 1, p.y), Point(p.x, p.y + 1), Point(p.x, p.y - 1)]
  }

  predicate Adjacent(p: Point, q: Point)
  {
    q == Point(p.x + 1, p.y) || q == Point(p.x - 1, p.y) || q == Point(p.x, p.y + 1) || q == Point(p.x, p.y - 1)
  }

  /** A 4-connected path of colour c. */
  ghost predicate IsPath(g: Grid, c: int, path: seq<Point>)
  {
    |path| > 0 &&
    (forall k | 0 <= k < |path| :: Cell(g, c, path[k])) &&
    (forall k | 0 <= k < |path| - 1 :: Adjacent(path[k], path[k + 1]))
  }

  /** p lies in the 4-connected region of colour c that holds s. */
  ghost predicate Connected(g: Grid, c: int, s: Point, p: Point)
  {
    exists path :: IsPath(g, c, path) && path[0] == s && path[|path| - 1] == p
  }

  /** The pixels the fill of the seed s with colour f recolours. */
  ghost predicate Recoloured(g: Grid, f: int, s: Point, p: Point)
  {
    InGrid(g, s) && g[s.x][s.y] != f && Connected(g, g[s.x][s.y], s, p)
  }

  // ---------------------------------------------------------------------
  // The loop state

  /** The array holds f on the filled pixels and the original colours
    * elsewhere. */
  ghost predicate Painted(a: array2<int>, g: Grid, filled: set<Point>, f: int)
    reads a
  {
    |g| == a.Length0 && (forall i | 0 <= i < |g| :: |g[i]| == a.Length1) &&
    forall i, j {:trigger a[i, j]} | 0 <= i < a.Length0 && 0 <= j < a.Length1 :: a[i, j] == if Point(i, j) in filled then f else g[i][j]
  }

  /** Every filled pixel was of colour c and is connected to the seed. */
  ghost predicate Sound(g: Grid, c: int, s: Point, filled: set<Point>)
  {
    forall p | p in filled :: Cell(g, c, p) && Connected(g, c, s, p)
  }

  predicate HasFilledNeighbour(p: Point, filled: set<Point>)
  {
    Point(p.x - 1, p.y) in filled || Point(p.x + 1, p.y) in filled ||
    Point(p.x, p.y - 1) in filled || Point(p.x, p.y + 1) in filled
  }

  /** Each entry of the stack is the seed or was pushed by a filled pixel. */
  ghost predicate Pushed(s: Point, filled: set<Point>, frontier: seq<Point>)
  {
    forall k | 0 <= k < |frontier| :: frontier[k] == s || HasFilledNeighbour(frontier[k], filled)
  }

  /** A neighbour n of a filled pixel is filled itself, cannot be filled, or
    * waits on the stack. */
  ghost predicate Settled(g: Grid, c: int, filled: set<Point>, frontier: seq<Point>, n: Point)
  {
    n in filled || !Cell(g, c, n) || n in frontier
  }

  ghost predicate Around(g: Grid, c: int, filled: set<Point>, frontier: seq<Point>, p: Point)
  {
    Settled(g, c, filled, frontier, Point(p.x + 1, p.y)) && Settled(g, c, filled, frontier, Point(p.x - 1, p.y)) &&
    Settled(g, c, filled, frontier, Point(p.x, p.y + 1)) && Settled(g, c, filled, frontier, Point(p.x, p.y - 1))
  }

  /** Every neighbour of a filled pixel is settled. The trigger keeps the
    * neighbours' own membership tests from instantiating this again. */
  ghost predicate Closed(g: Grid, c: int, filled: set<Point>, frontier: seq<Point>)
  {
    forall p {:trigger Around(g, c, filled, frontier, p)} | p in filled :: Around(g, c, filled, frontier, p)
  }

  /** The scanline hash covers exactly the filled pixels, row by row. */
  ghost predicate Scanlines(sl: map<int, seq<Frag>>, filled: set<Point>)
  {
    AllWellFormed(sl) && forall y, x {:trigger Covers(Get(sl, y), x)} :: Covers(Get(sl, y), x) <==> Point(x, y) in filled
  }

  ghost predicate Bounded(b: Bounds, filled: set<Point>)
  {
    forall p | p in filled :: Encloses(b, p)
  }

  /** The pixels of colour c. */
  ghost function CellsOf(g: Grid, c: int): set<Point>
  {
    set i, j | 0 <= i < |g| && 0 <= j < |g[i]| && g[i][j] == c :: Point(i, j)
  }

  ghost predicate FillInv(g: Grid, c: int, s: Point, filled: set<Point>, frontier: seq<Point>)
  {
    Sound(g, c, s, filled) && Pushed(s, filled, frontier) && Closed(g, c, filled, frontier) &&
    (s in filled || s in frontier)
  }

  // ---------------------------------------------------------------------
  // The fill

  /** floodfill in SOLID mode with symmetry off: nothing happens to the
    * picture when the seed is off the canvas or already has the fill colour;
    * otherwise exactly the 4-connected region of the seed's colour that holds
    * the seed is recoloured, the fill bounds enclose every recoloured pixel,
    * and the returned scanline hash covers exactly the recoloured pixels of
    * each row. The canvas is the array's extent. */
  method Fill(a: array2<int>, fillmode: FillMode, fillColor: int, position: Point) returns (sl: map<int, seq<Frag>>)
    modifies a, fillmode
    ensures forall i, j | 0 <= i < a.Length0 && 0 <= j < a.Length1 ::
              a[i, j] == if Recoloured(old(Snapshot(a)), fillColor, position, Point(i, j)) then fillColor else old(a[i, j])
    ensures forall p | Recoloured(old(Snapshot(a)), fillColor, position, p) :: Encloses(fillmode.bounds, p)
    ensures AllWellFormed(sl)
    ensures forall y, x :: Covers(Get(sl, y), x) <==> Recoloured(old(Snapshot(a)), fillColor, position, Point(x, y))
  {
    ghost var g := Snapshot(a);
    sl := map[];
    fillmode.bounds := NoBounds;
    if !Onscreen(position, a.Length0, a.Length1) {
      assert forall p :: !Recoloured(g, fillColor, position, p);
      return;
    }
    var currentColor := a[position.x, position.y];
    if fillColor == currentColor || a[position.x, position.y] == fillColor {
      assert forall p :: !Recoloured(g, fillColor, position, p);
      return;
    }
    ghost var filled: set<Point> := {};
    var frontier := [position];
    while |frontier| > 0
      invariant Inv(a, fillmode.bounds, g, currentColor, fillColor, position, sl, filled, frontier)
      decreases |CellsOf(g, currentColor) - filled|, |frontier|
    {
      ghost var filled0 := filled;
      sl, filled, frontier := Visit(a, fillmode, g, currentColor, fillColor, position, sl, filled, frontier);
      if filled != filled0 {
        Shrinks(CellsOf(g, currentColor), filled0, filled);
      }
    }
    Complete(g, currentColor, position, filled);
    sl := CollapseRows(sl, filled);
  }

  /** What floodfill keeps while it works through its stack. */
  ghost predicate Inv(a: array2<int>, b: Bounds, g: Grid, c: int, f: int, s: Point,
                      sl: map<int, seq<Frag>>, filled: set<Point>, frontier: seq<Point>)
    reads a
  {
    Painted(a, g, filled, f) && Cell(g, c, s) && c != f &&
    FillInv(g, c, s, filled, frontier) && Scanlines(sl, filled) && Bounded(b, filled) &&
    filled <= CellsOf(g, c)
  }

  /** One turn of floodfill's loop (prim.py:1373-1412): pop the top of the
    * stack; when it is on the canvas and still of the seed's colour c, paint
    * it, widen the bounds, add it to its row's fragments and push its four
    * neighbours. Either the filled set grows within the pixels of colour c,
    * or it stays and the stack shrinks. */
  method Visit(a: array2<int>, fillmode: FillMode, ghost g: Grid, c: int, f: int, ghost s: Point,
               sl: map<int, seq<Frag>>, ghost filled: set<Point>, frontier: seq<Point>)
    returns (sl': map<int, seq<Frag>>, ghost filled': set<Point>, frontier': seq<Point>)
    requires |frontier| > 0
    requires Inv(a, fillmode.bounds, g, c, f, s, sl, filled, frontier)
    modifies a, fillmode
    ensures Inv(a, fillmode.bounds, g, c, f, s, sl', filled', frontier')
    ensures (filled' == filled && |frontier'| < |frontier|) || (filled < filled' <= CellsOf(g, c))
  {
    var p := frontier[|frontier| - 1];
    frontier' := frontier[..|frontier| - 1];
    assert frontier == frontier' + [p];
    var x, y := p.x, p.y;
    var maxx, maxy := a.Length0, a.Length1;
    if !(x >= 0 && x < maxx && y >= 0 && y < maxy) || a[x, y] != c {
      SkipStep(g, c, s, filled, frontier', p);
      sl', filled' := sl, filled;
      return;
    }
    assert p !in filled && Cell(g, c, p);
    CellIn(g, c, p);
    PaintPixel(a, g, filled, f, p);
    ghost var b0 := fillmode.bounds;
    fillmode.AddBounds(p);
    WidenBounded(b0, filled, p);
    sl' := AddToRow(sl, filled, p);
    filled' := filled + {p};
    ghost var rest := frontier';
    frontier' := frontier' + Neighbours(p);
    FillStep(g, c, s, filled, rest, p);
  }

  method PaintPixel(a: array2<int>, ghost g: Grid, ghost filled: set<Point>, f: int, p: Point)
    requires Painted(a, g, filled, f) && InGrid(g, p)
    modifies a
    ensures Painted(a, g, filled + {p}, f)
  {
    a[p.x, p.y] := f;
  }

  /** Recording a filled pixel in the scanline hash (prim.py:1384-1406):
    * the row's fragments then cover exactly the filled pixels of the row. */
  method AddToRow(sl: map<int, seq<Frag>>, ghost filled: set<Point>, p: Point) returns (sl': map<int, seq<Frag>>)
    requires Scanlines(sl, filled)
    ensures Scanlines(sl', filled + {p})
  {
    if p.y in sl {
      var fs := AddPoint(sl[p.y], p.x);
      sl' := sl[p.y := fs];
    } else {
      assert [Frag(p.x, p.x)] == Insert([], p.x);
      sl' := sl[p.y := [Frag(p.x, p.x)]];
    }
    ScanlineStep(sl, filled, p, sl');
  }

  lemma CellIn(g: Grid, c: int, p: Point)
    requires Cell(g, c, p)
    ensures p in CellsOf(g, c)
  {
    var i, j := p.x, p.y;
    assert 0 <= i < |g| && 0 <= j < |g[i]| && g[i][j] == c;
  }

  lemma {:induction false} Shrinks(cells: set<Point>, f0: set<Point>, f1: set<Point>)
    requires f0 < f1 <= cells
    ensures |cells - f1| < |cells - f0|
  {
    var e :| e in f1 && e !in f0;
    assert e in f1 - f0;
    assert cells - f0 == (cells - f1) + (f1 - f0);
    assert (cells - f1) * (f1 - f0) == {};
  }

  /** The collapse of floodfill (prim.py:1416-1429) on every row. */
  method CollapseRows(sl: map<int, seq<Frag>>, ghost filled: set<Point>) returns (r: map<int, seq<Frag>>)
    requires Scanlines(sl, filled)
    ensures Scanlines(r, filled) && r.Keys == sl.Keys
    ensures forall y | y in r :: (AnyMergeable(sl[y], false) <==> |r[y]| < |sl[y]|) && (!AnyMergeable(sl[y], false) ==> r[y] == sl[y])
  {
    r := sl;
    var todo := sl.Keys;
    while todo != {}
      invariant r.Keys == sl.Keys && todo <= sl.Keys && AllWellFormed(r)
      invariant forall y | y in r :: SameRows(r[y], sl[y])
      invariant forall y | y in todo :: r[y] == sl[y]
      invariant forall y | y in r && y !in todo :: (AnyMergeable(sl[y], false) <==> |r[y]| < |sl[y]|) && (!AnyMergeable(sl[y], false) ==> r[y] == sl[y])
      decreases |todo|
    {
      var y := PickFrom(todo);
      var fs := Collapse(r[y], false);
      r := r[y := fs];
      todo := todo - {y};
    }
    forall y, x
      ensures Covers(Get(r, y), x) <==> Point(x, y) in filled
    {
      assert Covers(Get(r, y), x) <==> Covers(Get(sl, y), x);
    }
  }

  // ---------------------------------------------------------------------
  // One turn of the loop

  lemma {:induction false} ConnectedExtend(g: Grid, c: int, s: Point, q: Point, p: Point)
    requires Connected(g, c, s, q) && Cell(g, c, p) && Adjacent(q, p)
    ensures Connected(g, c, s, p)
  {
    var path :| IsPath(g, c, path) && path[0] == s && path[|path| - 1] == q;
    var path' := path + [p];
    assert forall k | 0 <= k < |path| :: path'[k] == path[k];
    assert IsPath(g, c, path');
  }

  lemma {:induction false} InPrefix(frontier: seq<Point>, p: Point, n: Point)
    requires n in frontier + [p] && n != p
    ensures n in frontier
  {
    var whole := frontier + [p];
    var k :| 0 <= k < |whole| && whole[k] == n;
    assert frontier[k] == n;
  }

  lemma {:induction false} InExtended(frontier: seq<Point>, ns: seq<Point>, n: Point)
    ensures n in frontier ==> n in frontier + ns
    ensures n in ns ==> n in frontier + ns
  {
    if n in frontier {
      var k :| 0 <= k < |frontier| && frontier[k] == n;
      assert (frontier + ns)[k] == n;
    }
    if n in ns {
      var k :| 0 <= k < |ns| && ns[k] == n;
      assert (frontier + ns)[|frontier| + k] == n;
    }
  }

  lemma {:induction false} SettledSkip(g: Grid, c: int, filled: set<Point>, frontier: seq<Point>, p: Point, n: Point)
    requires Settled(g, c, filled, frontier + [p], n) && (p in filled || !Cell(g, c, p))
    ensures Settled(g, c, filled, frontier, n)
  {
    if n in frontier + [p] && n != p {
      InPrefix(frontier, p, n);
    }
  }

  lemma {:induction false} SettledFill(g: Grid, c: int, filled: set<Point>, frontier: seq<Point>, p: Point, n: Point)
    requires Settled(g, c, filled, frontier + [p], n)
    ensures Settled(g, c, filled + {p}, frontier + Neighbours(p), n)
  {
    if n in frontier + [p] && n != p {
      InPrefix(frontier, p, n);
      InExtended(frontier, Neighbours(p), n);
    }
  }

  /** A popped entry that is off the canvas, or no longer of the seed's
    * colour, is dropped. */
  lemma {:induction false} SkipStep(g: Grid, c: int, s: Point, filled: set<Point>, frontier: seq<Point>, p: Point)
    requires FillInv(g, c, s, filled, frontier + [p]) && Cell(g, c, s)
    requires p in filled || !Cell(g, c, p)
    ensures FillInv(g, c, s, filled, frontier)
  {
    var whole := frontier + [p];
    assert forall k | 0 <= k < |frontier| :: frontier[k] == whole[k];
    forall q | q in filled
      ensures Around(g, c, filled, frontier, q)
    {
      assert Around(g, c, filled, whole, q);
      SettledSkip(g, c, filled, frontier, p, Point(q.x + 1, q.y));
      SettledSkip(g, c, filled, frontier, p, Point(q.x - 1, q.y));
      SettledSkip(g, c, filled, frontier, p, Point(q.x, q.y + 1));
      SettledSkip(g, c, filled, frontier, p, Point(q.x, q.y - 1));
    }
    if s !in filled && s != p {
      InPrefix(frontier, p, s);
    }
  }

  lemma {:induction false} SoundFill(g: Grid, c: int, s: Point, filled: set<Point>, p: Point)
    requires Sound(g, c, s, filled) && Cell(g, c, p) && (p == s || HasFilledNeighbour(p, filled))
    ensures Sound(g, c, s, filled + {p})
  {
    if p == s {
      assert IsPath(g, c, [s]);
    } else if Point(p.x - 1, p.y) in filled {
      ConnectedExtend(g, c, s, Point(p.x - 1, p.y), p);
    } else if Point(p.x + 1, p.y) in filled {
      ConnectedExtend(g, c, s, Point(p.x + 1, p.y), p);
    } else if Point(p.x, p.y - 1) in filled {
      ConnectedExtend(g, c, s, Point(p.x, p.y - 1), p);
    } else {
      ConnectedExtend(g, c, s, Point(p.x, p.y + 1), p);
    }
  }

  lemma {:induction false} PushedFill(s: Point, filled: set<Point>, frontier: seq<Point>, p: Point)
    requires Pushed(s, filled, frontier + [p])
    ensures Pushed(s, filled + {p}, frontier + Neighbours(p))
  {
    var whole := frontier + [p];
    var next := frontier + Neighbours(p);
    forall k | 0 <= k < |next|
      ensures next[k] == s || HasFilledNeighbour(next[k], filled + {p})
    {
      if k < |frontier| {
        assert next[k] == whole[k];
      } else {
        assert next[k] == Neighbours(p)[k - |frontier|];
      }
    }
  }

  lemma {:induction false} ClosedFill(g: Grid, c: int, filled: set<Point>, frontier: seq<Point>, p: Point)
    requires Closed(g, c, filled, frontier + [p])
    ensures Closed(g, c, filled + {p}, frontier + Neighbours(p))
  {
    var next := frontier + Neighbours(p);
    var filled' := filled + {p};
    forall k | 0 <= k < 4
      ensures Neighbours(p)[k] in next
    {
      InExtended(frontier, Neighbours(p), Neighbours(p)[k]);
    }
    forall q | q in filled'
      ensures Around(g, c, filled', next, q)
    {
      if q != p {
        assert Around(g, c, filled, frontier + [p], q);
        SettledFill(g, c, filled, frontier, p, Point(q.x + 1, q.y));
        SettledFill(g, c, filled, frontier, p, Point(q.x - 1, q.y));
        SettledFill(g, c, filled, frontier, p, Point(q.x, q.y + 1));
        SettledFill(g, c, filled, frontier, p, Point(q.x, q.y - 1));
      }
    }
  }

  /** A popped entry of the seed's colour is filled and pushes its four
    * neighbours. */
  lemma {:induction false} FillStep(g: Grid, c: int, s: Point, filled: set<Point>, frontier: seq<Point>, p: Point)
    requires FillInv(g, c, s, filled, frontier + [p])
    requires Cell(g, c, p) && p !in filled
    ensures FillInv(g, c, s, filled + {p}, frontier + Neighbours(p))
  {
    assert (frontier + [p])[|frontier|] == p;
    SoundFill(g, c, s, filled, p);
    PushedFill(s, filled, frontier, p);
    ClosedFill(g, c, filled, frontier, p);
    if s !in filled && s != p {
      InPrefix(frontier, p, s);
      InExtended(frontier, Neighbours(p), s);
    }
  }

  /** Once the stack is empty every pixel connected to the seed is filled. */
  lemma {:induction false} Complete(g: Grid, c: int, s: Point, filled: set<Point>)
    requires FillInv(g, c, s, filled, [])
    ensures forall p | Connected(g, c, s, p) :: p in filled
  {
    forall p | Connected(g, c, s, p)
      ensures p in filled
    {
      var path :| IsPath(g, c, path) && path[0] == s && path[|path| - 1] == p;
      PathFilled(g, c, s, filled, path, |path| - 1);
    }
  }

  lemma {:induction false} PathFilled(g: Grid, c: int, s: Point, filled: set<Point>, path: seq<Point>, k: nat)
    requires FillInv(g, c, s, filled, []) && IsPath(g, c, path) && path[0] == s && k < |path|
    ensures path[k] in filled
  {
    if k > 0 {
      PathFilled(g, c, s, filled, path, k - 1);
      assert Adjacent(path[k - 1], path[k]) && Cell(g, c, path[k]);
      assert Around(g, c, filled, [], path[k - 1]);
    }
  }

  lemma {:induction false} ScanlineStep(sl: map<int, seq<Frag>>, filled: set<Point>, p: Point, sl': map<int, seq<Frag>>)
    requires Scanlines(sl, filled)
    requires sl' == sl[p.y := Insert(Get(sl, p.y), p.x)]
    ensures Scanlines(sl', filled + {p})
  {
    InsertCovers(Get(sl, p.y), p.x, p.x);
    forall y, x
      ensures Covers(Get(sl', y), x) <==> Point(x, y) in filled + {p}
    {
      assert Covers(Get(sl, y), x) <==> Point(x, y) in filled;
      if y == p.y {
        InsertCovers(Get(sl, p.y), p.x, x);
      }
    }
  }

  lemma {:induction false} WidenBounded(b: Bounds, filled: set<Point>, p: Point)
    requires Bounded(b, filled)
    ensures Bounded(Widen(b, p), filled + {p})
  {
    forall q | q in filled + {p}
      ensures Encloses(Widen(b, p), q)
    {
      WidenEncloses(b, p, q);
    }
  }
}
