// Line coordinates (prim.py:723-780, with coordsonly) and the coordinate
// lists that the drawing primitives fill (CoordList, prim.py:387-399),
// with the every-n-th-point spacing of CoordList.draw (prim.py:448).

module Lines {
  import opened Support
  import opened Geometry

  function Sign(v: int): int
  {
    if v < 0 then -1 else if v > 0 then 1 else 0
  }

  /** The longer of the two axis extents of the line from a to b. */
  function Longest(a: Point, b: Point): nat
  {
    Max(Abs(b.x - a.x), Abs(b.y - a.y))
  }

  /** The number of points drawline returns: one per step of the longer
    * axis plus the end point, which skiplast leaves off. */
  function LineCount(a: Point, b: Point, skipLast: bool): nat
  {
    if skipLast then Longest(a, b) else Longest(a, b) + 1
  }

  /** k steps in the direction of v's sign (none when v is zero). */
  function Along(v: int, k: int): int
  {
    if v < 0 then -k else if v > 0 then k else 0
  }

  /** How many times the error term of a line with longer extent l and
    * shorter extent s has passed l after i steps: it starts at l // 2 and
    * grows by s per step. */
  function Quot(l: nat, s: nat, i: nat): int
    requires l > 0
  {
    (l / 2 + i * s) / l
  }

  /** Point i of the line from a to b, in closed form: i steps along the
    * longer axis and Quot steps along the shorter one. */
  function LinePoint(a: Point, b: Point, i: nat): Point
  {
    var w := b.x - a.x;
    var h := b.y - a.y;
    if Abs(w) > Abs(h) then
      Point(a.x + Along(w, i), a.y + Along(h, Quot(Abs(w), Abs(h), i)))
    else if h == 0 then
      a
    else
      Point(a.x + Along(w, Quot(Abs(h), Abs(w), i)), a.y + Along(h, i))
  }

  /** The points drawline(a, b, coordsonly=True, skiplast=skipLast) returns. */
  function Line(a: Point, b: Point, skipLast: bool): (r: seq<Point>)
    ensures |r| == LineCount(a, b, skipLast)
  {
    seq(LineCount(a, b, skipLast), i requires 0 <= i => LinePoint(a, b, i))
  }

  /** drawline with coordsonly: Bresenham's algorithm. */
  method DrawLine(coordFrom: Point, coordTo: Point, skipLast: bool) returns (r: seq<Point>)
    ensures r == Line(coordFrom, coordTo, skipLast)
  {
    var x, y := coordFrom.x, coordFrom.y;
    var x2, y2 := coordTo.x, coordTo.y;
    var w := x2 - x;
    var h := y2 - y;
    var dx1, dy1, dx2, dy2 := 0, 0, 0, 0;
    if w < 0 {
      dx1 := -1;
    } else if w > 0 {
      dx1 := 1;
    }
    if h < 0 {
      dy1 := -1;
    } else if h > 0 {
      dy1 := 1;
    }
    if w < 0 {
      dx2 := -1;
    } else if w > 0 {
      dx2 := 1;
    }
    var longest := Abs(w);
    var shortest := Abs(h);
    if !(longest > shortest) {
      longest := Abs(h);
      shortest := Abs(w);
      if h < 0 {
        dy2 := -1;
      } else if h > 0 {
        dy2 := 1;
      }
      dx2 := 0;
    }
    var numerator := longest / 2;
    var rangeHi := if skipLast then longest else longest + 1;
    r := LineLoop(coordFrom, coordTo, dx1, dy1, dx2, dy2, longest, shortest, rangeHi);
  }

  /** The direction and extents drawline sets up before its loop. */
  predicate LineSetup(a: Point, b: Point, dx1: int, dy1: int, dx2: int, dy2: int, longest: nat, shortest: nat)
  {
    var w := b.x - a.x;
    var h := b.y - a.y;
    dx1 == Sign(w) && dy1 == Sign(h) &&
    if Abs(w) > Abs(h) then
      dx2 == Sign(w) && dy2 == 0 && longest == Abs(w) && shortest == Abs(h)
    else
      dx2 == 0 && dy2 == Sign(h) && longest == Abs(h) && shortest == Abs(w)
  }

  /** The loop of drawline: each point is appended, then the error term
    * grows by the shorter extent; when it reaches the longer extent the
    * step is diagonal, otherwise straight along the longer axis. */
  method LineLoop(a: Point, b: Point, dx1: int, dy1: int, dx2: int, dy2: int, longest: nat, shortest: nat, rangeHi: nat)
    returns (r: seq<Point>)
    requires LineSetup(a, b, dx1, dy1, dx2, dy2, longest, shortest)
    requires rangeHi == longest || rangeHi == longest + 1
    ensures |r| == rangeHi && forall k :: 0 <= k < rangeHi ==> r[k] == LinePoint(a, b, k)
  {
    var x, y := a.x, a.y;
    var numerator := longest / 2;
    ghost var m := 0;
    LoopStart(a, b, dx1, dy1, dx2, dy2, longest, shortest);
    r := [];
    var i := 0;
    while i < rangeHi
      invariant 0 <= i <= rangeHi && |r| == i
      invariant LoopState(a, b, longest, shortest, i, m, numerator, x, y)
      invariant forall k :: 0 <= k < i ==> r[k] == LinePoint(a, b, k)
    {
      LoopNext(a, b, dx1, dy1, dx2, dy2, longest, shortest, i, m, numerator, x, y);
      r := r + [Point(x, y)];
      numerator := numerator + shortest;
      if !(numerator < longest) {
        numerator := numerator - longest;
        x := x + dx1;
        y := y + dy1;
        m := m + 1;
      } else {
        x := x + dx2;
        y := y + dy2;
      }
      i := i + 1;
    }
  }

  /** What the loop of drawline keeps after i steps, m of them diagonal:
    * the error term is the remainder and m the quotient of Quot, and the
    * position is i steps along the longer axis and m along the shorter. */
  ghost predicate LoopState(a: Point, b: Point, longest: nat, shortest: nat, i: nat, m: int, numerator: int, x: int, y: int)
  {
    var w := b.x - a.x;
    var h := b.y - a.y;
    (longest == 0 ==> numerator == 0) &&
    (longest > 0 ==> numerator == (longest / 2 + i * shortest) % longest && m == Quot(longest, shortest, i)) &&
    (Abs(w) > Abs(h) ==> x == a.x + Along(w, i) && y == a.y + Along(h, m)) &&
    (Abs(w) <= Abs(h) ==> x == a.x + Along(w, m) && y == a.y + Along(h, i))
  }

  lemma {:induction false} LoopStart(a: Point, b: Point, dx1: int, dy1: int, dx2: int, dy2: int, longest: nat, shortest: nat)
    requires LineSetup(a, b, dx1, dy1, dx2, dy2, longest, shortest)
    ensures LoopState(a, b, longest, shortest, 0, 0, longest / 2, a.x, a.y)
  {
    if longest > 0 {
      QuotZero(longest, shortest);
    }
  }

  /** One turn of the loop: the current position is point i, and the
    * updates lead to the state after i + 1 steps. */
  lemma {:induction false} LoopNext(a: Point, b: Point, dx1: int, dy1: int, dx2: int, dy2: int, longest: nat, shortest: nat,
                                    i: nat, m: int, numerator: int, x: int, y: int)
    requires LineSetup(a, b, dx1, dy1, dx2, dy2, longest, shortest)
    requires LoopState(a, b, longest, shortest, i, m, numerator, x, y)
    ensures Point(x, y) == LinePoint(a, b, i)
    ensures var n := numerator + shortest;
            if !(n < longest) then LoopState(a, b, longest, shortest, i + 1, m + 1, n - longest, x + dx1, y + dy1)
            else LoopState(a, b, longest, shortest, i + 1, m, n, x + dx2, y + dy2)
  {
    LoopPoint(a, b, dx1, dy1, dx2, dy2, longest, shortest, i, m, numerator, x, y);
    LoopAdvance(a, b, dx1, dy1, dx2, dy2, longest, shortest, i, m, numerator, x, y);
  }

  lemma {:induction false} LoopPoint(a: Point, b: Point, dx1: int, dy1: int, dx2: int, dy2: int, longest: nat, shortest: nat,
                                     i: nat, m: int, numerator: int, x: int, y: int)
    requires LineSetup(a, b, dx1, dy1, dx2, dy2, longest, shortest)
    requires LoopState(a, b, longest, shortest, i, m, numerator, x, y)
    ensures Point(x, y) == LinePoint(a, b, i)
  {
  }

  lemma {:induction false} LoopAdvance(a: Point, b: Point, dx1: int, dy1: int, dx2: int, dy2: int, longest: nat, shortest: nat,
                                       i: nat, m: int, numerator: int, x: int, y: int)
    requires LineSetup(a, b, dx1, dy1, dx2, dy2, longest, shortest)
    requires LoopState(a, b, longest, shortest, i, m, numerator, x, y)
    ensures var n := numerator + shortest;
            if !(n < longest) then LoopState(a, b, longest, shortest, i + 1, m + 1, n - longest, x + dx1, y + dy1)
            else LoopState(a, b, longest, shortest, i + 1, m, n, x + dx2, y + dy2)
  {
    var w := b.x - a.x;
    var h := b.y - a.y;
    if longest > 0 {
      MinorStep(longest, shortest, i);
    }
    if Abs(w) > Abs(h) {
      assert longest == Abs(w) && shortest == Abs(h) && dx2 == dx1 && dy2 == 0;
      assert x + dx1 == a.x + Along(w, i + 1);
    } else {
      assert longest == Abs(h) && shortest == Abs(w) && dx2 == 0 && dy2 == dy1;
      assert y + dy1 == a.y + Along(h, i + 1);
    }
  }

  // ---------------------------------------------------------------------
  // What drawline promises

  /** The error term starts below the longer extent. */
  lemma {:induction false} QuotZero(l: nat, s: nat)
    requires l > 0
    ensures Quot(l, s, 0) == 0 && (l / 2 + 0 * s) % l == l / 2
  {
    DivModUnique(l / 2 + 0 * s, l, 0, l / 2);
  }

  /** After l steps it has passed l exactly s times. */
  lemma {:induction false} QuotEnd(l: nat, s: nat)
    requires l > 0
    ensures Quot(l, s, l) == s
  {
    assert l / 2 + l * s == l * s + l / 2;
    DivModUnique(l / 2 + l * s, l, s, l / 2);
  }

  /** The first point is coordfrom (when there is one). */
  lemma {:induction false} LineFirst(a: Point, b: Point, skipLast: bool)
    requires LineCount(a, b, skipLast) > 0
    ensures Line(a, b, skipLast)[0] == a
  {
    var w := b.x - a.x;
    var h := b.y - a.y;
    if Abs(w) > Abs(h) {
      QuotZero(Abs(w), Abs(h));
    } else if h != 0 {
      QuotZero(Abs(h), Abs(w));
    }
  }

  /** Without skiplast the last point is coordto. */
  lemma {:induction false} LineLast(a: Point, b: Point)
    ensures Line(a, b, false)[Longest(a, b)] == b
  {
    var w := b.x - a.x;
    var h := b.y - a.y;
    if Abs(w) > Abs(h) {
      QuotEnd(Abs(w), Abs(h));
    } else if h != 0 {
      QuotEnd(Abs(h), Abs(w));
    }
  }

  /** With skiplast the line is the same but for the missing end point. */
  lemma {:induction false} LineSkipLast(a: Point, b: Point)
    ensures Line(a, b, true) == Line(a, b, false)[..Longest(a, b)]
  {
  }

  /** From one point to the next the longer axis moves by exactly one (in
    * the direction of the end point) and the shorter one by at most one. */
  lemma {:induction false} LineStep(a: Point, b: Point, i: nat)
    requires i + 1 < LineCount(a, b, false)
    ensures var p, q := LinePoint(a, b, i), LinePoint(a, b, i + 1);
            if Abs(b.x - a.x) > Abs(b.y - a.y) then
              q.x - p.x == Sign(b.x - a.x) && Abs(q.y - p.y) <= 1
            else
              q.y - p.y == Sign(b.y - a.y) && Abs(q.x - p.x) <= 1
  {
    var w := b.x - a.x;
    var h := b.y - a.y;
    if Abs(w) > Abs(h) {
      MinorStep(Abs(w), Abs(h), i);
    } else if h != 0 {
      MinorStep(Abs(h), Abs(w), i);
    }
  }

  /** One step of the error term: it passes l once more exactly when the
    * remainder plus s reaches l. */
  lemma {:induction false} MinorStep(l: nat, s: nat, i: nat)
    requires 0 < l && s <= l
    ensures var v := l / 2 + i * s;
            if v % l + s < l then
              Quot(l, s, i + 1) == Quot(l, s, i) && (l / 2 + (i + 1) * s) % l == v % l + s
            else
              Quot(l, s, i + 1) == Quot(l, s, i) + 1 && (l / 2 + (i + 1) * s) % l == v % l + s - l
  {
    var v := l / 2 + i * s;
    var q := v / l;
    var r := v % l;
    assert l / 2 + (i + 1) * s == v + s;
    assert v == l * q + r;
    if r + s < l {
      DivModUnique(v + s, l, q, r + s);
    } else {
      assert v + s == l * (q + 1) + (r + s - l);
      DivModUnique(v + s, l, q + 1, r + s - l);
    }
  }

  // ---------------------------------------------------------------------
  // CoordList (prim.py:387-399)

  class CoordList {
    var coordList: seq<seq<Point>>

    /** numlists empty lists. */
    constructor (numLists: nat)
      ensures coordList == seq(numLists, _ => [])
    {
      coordList := seq(numLists, _ => []);
    }

    method Append(listNum: nat, coord: Point)
      requires listNum < |coordList|
      modifies this
      ensures coordList == old(coordList)[listNum := old(coordList)[listNum] + [coord]]
    {
      coordList := coordList[listNum := coordList[listNum] + [coord]];
    }

    method Prepend(listNum: nat, coord: Point)
      requires listNum < |coordList|
      modifies this
      ensures coordList == old(coordList)[listNum := [coord] + old(coordList)[listNum]]
    {
      coordList := coordList[listNum := [coord] + coordList[listNum]];
    }

    /** The points draw visits, list after list. With EVERY_N spacing of n
      * only every n-th point is stamped (None: the modulo by zero raises at
      * the first point). */
    method EveryN(n: int) returns (r: Option<seq<Point>>)
      ensures n == 0 ==> r == (if Flatten(coordList) == [] then Some([]) else None)
      ensures n != 0 ==> r == Some(Spaced(Flatten(coordList), n, |Flatten(coordList)|))
    {
      var ls := coordList;
      ghost var flat := Flatten(ls);
      if n == 0 {
        return if Flatten(ls) == [] then Some([]) else None;
      }
      var drawn: seq<Point> := [];
      var currPoint := -1;
      var i := 0;
      while i < |ls|
        invariant 0 <= i <= |ls|
        invariant currPoint + 1 == |Flatten(ls[..i])| <= |flat|
        invariant drawn == Spaced(flat, n, currPoint + 1)
      {
        FlattenSlice(ls, i);
        drawn, currPoint := SpaceList(drawn, currPoint, ls[i], n, flat);
        i := i + 1;
      }
      assert ls[..i] == ls;
      r := Some(drawn);
    }
  }

  /** The inner loop of draw over one list: the running point counter
    * decides which points are stamped. */
  method SpaceList(drawn0: seq<Point>, currPoint0: int, pts: seq<Point>, n: int, ghost flat: seq<Point>)
    returns (drawn: seq<Point>, currPoint: int)
    requires n != 0 && 0 <= currPoint0 + 1 && currPoint0 + 1 + |pts| <= |flat|
    requires flat[currPoint0 + 1 .. currPoint0 + 1 + |pts|] == pts
    ensures currPoint == currPoint0 + |pts|
    requires drawn0 == Spaced(flat, n, currPoint0 + 1)
    ensures drawn == Spaced(flat, n, currPoint + 1)
  {
    drawn, currPoint := drawn0, currPoint0;
    var j := 0;
    while j < |pts|
      invariant 0 <= j <= |pts| && currPoint == currPoint0 + j
      invariant drawn == Spaced(flat, n, currPoint + 1)
    {
      currPoint := currPoint + 1;
      if currPoint % n != 0 {
        j := j + 1;
        continue;
      }
      assert flat[currPoint] == flat[currPoint0 + 1 .. currPoint0 + 1 + |pts|][j] == pts[j];
      drawn := drawn + [pts[j]];
      j := j + 1;
    }
  }

  /** List i sits in the flattened points right after the lists before it. */
  lemma {:induction false} FlattenSlice(ls: seq<seq<Point>>, i: nat)
    requires i < |ls|
    ensures |Flatten(ls[..i + 1])| == |Flatten(ls[..i])| + |ls[i]| <= |Flatten(ls)|
    ensures Flatten(ls)[|Flatten(ls[..i])| .. |Flatten(ls[..i])| + |ls[i]|] == ls[i]
  {
    FlattenPrefix(ls, i);
    FlattenGrows(ls, i + 1);
  }

  /** All the lists of a CoordList, one after the other. */
  function Flatten(ls: seq<seq<Point>>): seq<Point>
  {
    if ls == [] then [] else Flatten(ls[..|ls| - 1]) + ls[|ls| - 1]
  }

  lemma {:induction false} FlattenPrefix(ls: seq<seq<Point>>, i: nat)
    requires i < |ls|
    ensures Flatten(ls[..i + 1]) == Flatten(ls[..i]) + ls[i]
  {
    assert ls[..i + 1][..i] == ls[..i];
  }

  /** Point j of list i is point |Flatten(ls[..i])| + j of the whole. */
  lemma {:induction false} FlattenIndex(ls: seq<seq<Point>>, i: nat, j: nat)
    requires i < |ls| && j < |ls[i]|
    ensures |Flatten(ls[..i])| + j < |Flatten(ls)| && Flatten(ls)[|Flatten(ls[..i])| + j] == ls[i][j]
  {
    FlattenPrefix(ls, i);
    FlattenGrows(ls, i + 1);
  }

  /** A prefix of the lists flattens to a prefix of the whole. */
  lemma {:induction false} FlattenGrows(ls: seq<seq<Point>>, i: nat)
    requires i <= |ls|
    ensures Flatten(ls[..i]) <= Flatten(ls)
    decreases |ls| - i
  {
    if i < |ls| {
      FlattenPrefix(ls, i);
      FlattenGrows(ls, i + 1);
    } else {
      assert ls[..i] == ls;
    }
  }

  /** The points among the first k of s whose index is a multiple of n. */
  function Spaced(s: seq<Point>, n: int, k: nat): seq<Point>
    requires n != 0 && k <= |s|
  {
    if k == 0 then [] else Spaced(s, n, k - 1) + (if (k - 1) % n == 0 then [s[k - 1]] else [])
  }
}
