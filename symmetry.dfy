// symm_coords (prim.py:96-175): the copies of one brush position that the
// symmetry settings ask for. The identity and mirror cases and the tiled
// mode are modelled; the rotated copies of point symmetry use floating
// point and are not part of this model.

module Symmetry {
  import opened Support
  import opened Geometry

  /** The symmetry settings read from config, and the canvas size. */
  datatype SymmSettings = SymmSettings(
    on: bool,          // config.symm_on
    mode: int,         // config.symm_mode: 0 point, 1 tiled
    num: int,          // config.symm_num
    mirror: bool,      // config.symm_type == 1
    center: Point,     // config.symm_center
    tileW: int,        // config.symm_width
    tileH: int,        // config.symm_height
    width: int,        // config.pixel_width
    height: int)       // config.pixel_height

  /** The settings under which the rotated copies would be appended. */
  predicate Rotates(s: SymmSettings)
  {
    s.on && s.mode == 0 && s.num > 1
  }

  /** The reflection of p in the vertical line through the centre. */
  function Mirror(p: Point, c: Point): Point
  {
    Point(c.x * 2 - p.x, p.y)
  }

  /** symm_coords. None is the ZeroDivisionError of a tiled mode with a zero
    * tile size. */
  method SymmCoords(p: Point, handleSymm: bool, s: SymmSettings) returns (r: Option<seq<Point>>)
    requires handleSymm ==> !Rotates(s)
    ensures !handleSymm || !s.on ==> r == Some([p])
    ensures handleSymm && s.on && s.mode == 0 ==>
              r == Some(if s.num > 0 && s.mirror then [p, Mirror(p, s.center)] else [p])
    ensures handleSymm && s.on && s.mode == 1 ==>
              r == (if s.tileW == 0 || s.tileH == 0 then None
                    else Some(Tile(p, s.tileW, s.tileH, NumTiles(s.width, s.tileW), NumTiles(s.height, s.tileH))))
    ensures handleSymm && s.on && s.mode != 0 && s.mode != 1 ==> r == Some([p])
  {
    var newCoords := [p];
    if !handleSymm {
      return Some(newCoords);
    }
    if s.on {
      if s.mode == 0 {
        if s.num > 0 {
          if s.mirror {
            newCoords := [p, Mirror(p, s.center)];
          }
        }
      } else if s.mode == 1 {
        if s.tileW == 0 || s.tileH == 0 {
          return None;
        }
        newCoords := SymmTile(p, s.tileW, s.tileH, s.width, s.height);
      }
    }
    r := Some(newCoords);
  }

  // ---------------------------------------------------------------------
  // Tiled mode

  /** numcols = pixel_width // symm_width + 1, or numrows likewise; a
    * negative count makes an empty range. */
  function NumTiles(extent: int, tile: int): nat
    requires tile != 0
  {
    var n := FloorDiv(extent, tile) + 1;
    if n < 0 then 0 else n
  }

  /** One column of nr points from (x0, y0), stepping sy down the rows. */
  function Col(x0: int, y0: int, sy: int, nr: nat): (c: seq<Point>)
    ensures |c| == nr
    decreases nr
  {
    if nr == 0 then [] else [Point(x0, y0)] + Col(x0, y0 + sy, sy, nr - 1)
  }

  /** nc such columns, the first at x0 and each next one sx further. */
  function Cols(x0: int, y0: int, sx: int, sy: int, nc: nat, nr: nat): seq<Point>
    decreases nc
  {
    if nc == 0 then [] else Col(x0, y0, sy, nr) + Cols(x0 + sx, y0, sx, sy, nc - 1, nr)
  }

  /** The four blocks that tile mode emits, in order: right and down, left
    * and down, right and up, left and up. */
  function Tile(p: Point, tw: int, th: int, nc: nat, nr: nat): seq<Point>
  {
    Cols(p.x, p.y, tw, th, nc, nr) + Cols(p.x - tw, p.y, -tw, th, nc, nr) +
    Cols(p.x, p.y - th, tw, -th, nc, nr) + Cols(p.x - tw, p.y - th, -tw, -th, nc, nr)
  }

  lemma {:induction false} ColUnfold(r: seq<Point>, x0: int, y0: int, sy: int, n: nat, rest: seq<Point>)
    requires n > 0
    ensures r + Col(x0, y0, sy, n) + rest == (r + [Point(x0, y0)]) + Col(x0, y0 + sy, sy, n - 1) + rest
  {
    assert Col(x0, y0, sy, n) == [Point(x0, y0)] + Col(x0, y0 + sy, sy, n - 1);
  }

  lemma {:induction false} ColsUnfold(r: seq<Point>, x0: int, y0: int, sx: int, sy: int, nc: nat, nr: nat)
    requires nc > 0
    ensures r + Cols(x0, y0, sx, sy, nc, nr) == r + Col(x0, y0, sy, nr) + Cols(x0 + sx, y0, sx, sy, nc - 1, nr)
  {
  }

  lemma {:induction false} ColEmpty(r: seq<Point>, x0: int, y0: int, sy: int, rest: seq<Point>)
    ensures r + Col(x0, y0, sy, 0) + rest == r + rest
  {
    assert Col(x0, y0, sy, 0) == [];
  }

  /** The tiled branch: four double loops over the columns and rows, each
    * appending one block. */
  method SymmTile(p: Point, tw: int, th: int, width: int, height: int) returns (r: seq<Point>)
    requires tw != 0 && th != 0
    ensures r == Tile(p, tw, th, NumTiles(width, tw), NumTiles(height, th))
  {
    var numCols := FloorDiv(width, tw) + 1;
    var numRows := FloorDiv(height, th) + 1;
    r := [];
    r := RightDown(r, p.x, p.y, tw, th, numCols, numRows);
    r := LeftDown(r, p.x, p.y, tw, th, numCols, numRows);
    r := RightUp(r, p.x, p.y, tw, th, numCols, numRows);
    r := LeftUp(r, p.x, p.y, tw, th, numCols, numRows);
  }

  function Count(n: int): nat { if n < 0 then 0 else n }

  /** An inner loop that appends (x0, y0) and then steps y0 by sy. */
  method ColAppendThenStep(r0: seq<Point>, x0: int, y: int, sy: int, numRows: int) returns (r: seq<Point>)
    ensures r == r0 + Col(x0, y, sy, Count(numRows))
  {
    ghost var nr := Count(numRows);
    r := r0;
    var y0 := y;
    var yr := 0;
    while yr < numRows
      invariant yr <= nr
      invariant r + Col(x0, y0, sy, nr - yr) == r0 + Col(x0, y, sy, nr)
    {
      ColUnfold(r, x0, y0, sy, nr - yr, []);
      r := r + [Point(x0, y0)];
      y0 := y0 + sy;
      yr := yr + 1;
    }
    ColEmpty(r, x0, y0, sy, []);
  }

  /** An inner loop that steps y0 by sy and then appends (x0, y0). */
  method ColStepThenAppend(r0: seq<Point>, x0: int, y: int, sy: int, numRows: int) returns (r: seq<Point>)
    ensures r == r0 + Col(x0, y + sy, sy, Count(numRows))
  {
    ghost var nr := Count(numRows);
    r := r0;
    var y0 := y;
    var yr := 0;
    while yr < numRows
      invariant yr <= nr
      invariant r + Col(x0, y0 + sy, sy, nr - yr) == r0 + Col(x0, y + sy, sy, nr)
    {
      ColUnfold(r, x0, y0 + sy, sy, nr - yr, []);
      y0 := y0 + sy;
      r := r + [Point(x0, y0)];
      yr := yr + 1;
    }
    ColEmpty(r, x0, y0 + sy, sy, []);
  }

  /** First block (prim.py:148-154): x0 and y0 step after each point. */
  method RightDown(r0: seq<Point>, x: int, y: int, tw: int, th: int, numCols: int, numRows: int) returns (r: seq<Point>)
    ensures r == r0 + Cols(x, y, tw, th, Count(numCols), Count(numRows))
  {
    ghost var nc := Count(numCols);
    ghost var nr := Count(numRows);
    r := r0;
    var x0 := x;
    var xr := 0;
    while xr < numCols
      invariant xr <= nc
      invariant r + Cols(x0, y, tw, th, nc - xr, nr) == r0 + Cols(x, y, tw, th, nc, nr)
    {
      ColsUnfold(r, x0, y, tw, th, nc - xr, nr);
      r := ColAppendThenStep(r, x0, y, th, numRows);
      x0 := x0 + tw;
      xr := xr + 1;
    }
  }

  /** Second block (prim.py:155-161): x0 steps left before each column. */
  method LeftDown(r0: seq<Point>, x: int, y: int, tw: int, th: int, numCols: int, numRows: int) returns (r: seq<Point>)
    ensures r == r0 + Cols(x - tw, y, -tw, th, Count(numCols), Count(numRows))
  {
    ghost var nc := Count(numCols);
    ghost var nr := Count(numRows);
    r := r0;
    var x0 := x;
    var xr := 0;
    while xr < numCols
      invariant xr <= nc
      invariant r + Cols(x0 - tw, y, -tw, th, nc - xr, nr) == r0 + Cols(x - tw, y, -tw, th, nc, nr)
    {
      ColsUnfold(r, x0 - tw, y, -tw, th, nc - xr, nr);
      x0 := x0 - tw;
      r := ColAppendThenStep(r, x0, y, th, numRows);
      xr := xr + 1;
    }
  }

  /** Third block (prim.py:162-168): y0 steps up before each point. */
  method RightUp(r0: seq<Point>, x: int, y: int, tw: int, th: int, numCols: int, numRows: int) returns (r: seq<Point>)
    ensures r == r0 + Cols(x, y - th, tw, -th, Count(numCols), Count(numRows))
  {
    ghost var nc := Count(numCols);
    ghost var nr := Count(numRows);
    r := r0;
    var x0 := x;
    var xr := 0;
    while xr < numCols
      invariant xr <= nc
      invariant r + Cols(x0, y - th, tw, -th, nc - xr, nr) == r0 + Cols(x, y - th, tw, -th, nc, nr)
    {
      ColsUnfold(r, x0, y - th, tw, -th, nc - xr, nr);
      r := ColStepThenAppend(r, x0, y, -th, numRows);
      x0 := x0 + tw;
      xr := xr + 1;
    }
  }

  /** Fourth block (prim.py:169-175): both step before each point. */
  method LeftUp(r0: seq<Point>, x: int, y: int, tw: int, th: int, numCols: int, numRows: int) returns (r: seq<Point>)
    ensures r == r0 + Cols(x - tw, y - th, -tw, -th, Count(numCols), Count(numRows))
  {
    ghost var nc := Count(numCols);
    ghost var nr := Count(numRows);
    r := r0;
    var x0 := x;
    var xr := 0;
    while xr < numCols
      invariant xr <= nc
      invariant r + Cols(x0 - tw, y - th, -tw, -th, nc - xr, nr) == r0 + Cols(x - tw, y - th, -tw, -th, nc, nr)
    {
      ColsUnfold(r, x0 - tw, y - th, -tw, -th, nc - xr, nr);
      x0 := x0 - tw;
      r := ColStepThenAppend(r, x0, y, -th, numRows);
      xr := xr + 1;
    }
  }

  // ---------------------------------------------------------------------
  // What tile mode produces

  /** The brush position moved i steps of sx across and j steps of sy down. */
  function At(x0: int, y0: int, sx: int, sy: int, i: int, j: int): Point
  {
    Point(x0 + i * sx, y0 + j * sy)
  }

  lemma {:induction false} AtShiftRow(x0: int, y0: int, sx: int, sy: int, i: int, j: int)
    ensures At(x0, y0 + sy, sx, sy, i, j) == At(x0, y0, sx, sy, i, j + 1)
  {
    assert y0 + sy + j * sy == y0 + (j + 1) * sy;
  }

  lemma {:induction false} AtShiftCol(x0: int, y0: int, sx: int, sy: int, i: int, j: int)
    ensures At(x0 + sx, y0, sx, sy, i, j) == At(x0, y0, sx, sy, i + 1, j)
  {
    assert x0 + sx + i * sx == x0 + (i + 1) * sx;
  }

  /** Column nr point j is the start moved j rows. */
  lemma {:induction false} ColMembers(x0: int, y0: int, sx: int, sy: int, nr: nat, c: Point)
    ensures c in Col(x0, y0, sy, nr) <==> exists j: int :: 0 <= j < nr && c == At(x0, y0, sx, sy, 0, j)
    decreases nr
  {
    if nr > 0 {
      var tail := Col(x0, y0 + sy, sy, nr - 1);
      assert Col(x0, y0, sy, nr) == [Point(x0, y0)] + tail;
      ColMembers(x0, y0 + sy, sx, sy, nr - 1, c);
      if c in tail {
        var j: int :| 0 <= j < nr - 1 && c == At(x0, y0 + sy, sx, sy, 0, j);
        AtShiftRow(x0, y0, sx, sy, 0, j);
      }
      if c == Point(x0, y0) {
        assert c == At(x0, y0, sx, sy, 0, 0);
      }
      if exists j: int :: 0 <= j < nr && c == At(x0, y0, sx, sy, 0, j) {
        var j: int :| 0 <= j < nr && c == At(x0, y0, sx, sy, 0, j);
        if j > 0 {
          AtShiftRow(x0, y0, sx, sy, 0, j - 1);
        }
      }
    }
  }

  /** The columns hold exactly the start moved i columns and j rows. */
  lemma {:induction false} ColsMembers(x0: int, y0: int, sx: int, sy: int, nc: nat, nr: nat, c: Point)
    ensures c in Cols(x0, y0, sx, sy, nc, nr) <==> exists i: int, j: int :: 0 <= i < nc && 0 <= j < nr && c == At(x0, y0, sx, sy, i, j)
    decreases nc
  {
    if nc > 0 {
      var rest := Cols(x0 + sx, y0, sx, sy, nc - 1, nr);
      assert Cols(x0, y0, sx, sy, nc, nr) == Col(x0, y0, sy, nr) + rest;
      ColMembers(x0, y0, sx, sy, nr, c);
      ColsMembers(x0 + sx, y0, sx, sy, nc - 1, nr, c);
      if c in rest {
        var i: int, j: int :| 0 <= i < nc - 1 && 0 <= j < nr && c == At(x0 + sx, y0, sx, sy, i, j);
        AtShiftCol(x0, y0, sx, sy, i, j);
      }
      if exists i: int, j: int :: 0 <= i < nc && 0 <= j < nr && c == At(x0, y0, sx, sy, i, j) {
        var i: int, j: int :| 0 <= i < nc && 0 <= j < nr && c == At(x0, y0, sx, sy, i, j);
        if i > 0 {
          AtShiftCol(x0, y0, sx, sy, i - 1, j);
        } else {
          assert c in Col(x0, y0, sy, nr);
        }
      }
    }
  }

  lemma {:induction false} MulCancel(a: int, b: int, t: int)
    requires t != 0 && a * t == b * t
    ensures a == b
  {
    assert (a - b) * t == 0;
  }

  /** With non-zero steps distinct offsets give distinct points. */
  lemma {:induction false} AtInjective(x0: int, y0: int, sx: int, sy: int, i: int, j: int, i': int, j': int)
    requires sx != 0 && sy != 0 && At(x0, y0, sx, sy, i, j) == At(x0, y0, sx, sy, i', j')
    ensures i == i' && j == j'
  {
    MulCancel(i, i', sx);
    MulCancel(j, j', sy);
  }

  predicate NoDup(s: seq<Point>)
  {
    forall a, b :: 0 <= a < b < |s| ==> s[a] != s[b]
  }

  predicate Disjoint(s: seq<Point>, t: seq<Point>)
  {
    forall a :: 0 <= a < |s| ==> s[a] !in t
  }

  lemma {:induction false} NoDupAppend(s: seq<Point>, t: seq<Point>)
    requires NoDup(s) && NoDup(t) && Disjoint(s, t)
    ensures NoDup(s + t)
  {
    forall a, b | 0 <= a < b < |s + t|
      ensures (s + t)[a] != (s + t)[b]
    {
      if a < |s| && b >= |s| {
        assert (s + t)[b] == t[b - |s|];
      }
    }
  }

  lemma {:induction false} ColsNoDup(x0: int, y0: int, sx: int, sy: int, nc: nat, nr: nat)
    requires sx != 0 && sy != 0
    ensures NoDup(Cols(x0, y0, sx, sy, nc, nr))
    decreases nc
  {
    if nc > 0 {
      var col := Col(x0, y0, sy, nr);
      var rest := Cols(x0 + sx, y0, sx, sy, nc - 1, nr);
      ColsNoDup(x0 + sx, y0, sx, sy, nc - 1, nr);
      ColNoDup(x0, y0, sx, sy, nr);
      forall a | 0 <= a < |col|
        ensures col[a] !in rest
      {
        ColMembers(x0, y0, sx, sy, nr, col[a]);
        ColsMembers(x0 + sx, y0, sx, sy, nc - 1, nr, col[a]);
        var j: int :| 0 <= j < nr && col[a] == At(x0, y0, sx, sy, 0, j);
        if col[a] in rest {
          var i': int, j': int :| 0 <= i' < nc - 1 && 0 <= j' < nr && col[a] == At(x0 + sx, y0, sx, sy, i', j');
          AtShiftCol(x0, y0, sx, sy, i', j');
          AtInjective(x0, y0, sx, sy, 0, j, i' + 1, j');
        }
      }
      NoDupAppend(col, rest);
    }
  }

  lemma {:induction false} ColNoDup(x0: int, y0: int, sx: int, sy: int, nr: nat)
    requires sx != 0 && sy != 0
    ensures NoDup(Col(x0, y0, sy, nr))
    decreases nr
  {
    if nr > 0 {
      var tail := Col(x0, y0 + sy, sy, nr - 1);
      ColNoDup(x0, y0 + sy, sx, sy, nr - 1);
      ColMembers(x0, y0 + sy, sx, sy, nr - 1, Point(x0, y0));
      if Point(x0, y0) in tail {
        var j: int :| 0 <= j < nr - 1 && Point(x0, y0) == At(x0, y0 + sy, sx, sy, 0, j);
        AtShiftRow(x0, y0, sx, sy, 0, j);
        assert Point(x0, y0) == At(x0, y0, sx, sy, 0, 0);
        AtInjective(x0, y0, sx, sy, 0, 0, 0, j + 1);
      }
      NoDupAppend([Point(x0, y0)], tail);
      assert Col(x0, y0, sy, nr) == [Point(x0, y0)] + tail;
    }
  }

  /** The offsets, in whole tiles, that block q (0..3) of the tile list covers. */
  predicate InBlock(q: nat, i: int, j: int, nc: nat, nr: nat)
  {
    (if q % 2 == 0 then 0 <= i < nc else -(nc as int) <= i < 0) &&
    (if q < 2 then 0 <= j < nr else -(nr as int) <= j < 0)
  }

  function Block(p: Point, tw: int, th: int, nc: nat, nr: nat, q: nat): seq<Point>
    requires q < 4
  {
    if q == 0 then Cols(p.x, p.y, tw, th, nc, nr)
    else if q == 1 then Cols(p.x - tw, p.y, -tw, th, nc, nr)
    else if q == 2 then Cols(p.x, p.y - th, tw, -th, nc, nr)
    else Cols(p.x - tw, p.y - th, -tw, -th, nc, nr)
  }

  /** Block q holds exactly the brush position moved by the offsets InBlock
    * allows. */
  lemma {:induction false} BlockMembers(p: Point, tw: int, th: int, nc: nat, nr: nat, q: nat, c: Point)
    requires q < 4
    ensures c in Block(p, tw, th, nc, nr, q) <==> exists i: int, j: int :: InBlock(q, i, j, nc, nr) && c == At(p.x, p.y, tw, th, i, j)
  {
    var x0 := if q % 2 == 0 then p.x else p.x - tw;
    var y0 := if q < 2 then p.y else p.y - th;
    var sx := if q % 2 == 0 then tw else -tw;
    var sy := if q < 2 then th else -th;
    assert Block(p, tw, th, nc, nr, q) == Cols(x0, y0, sx, sy, nc, nr);
    ColsMembers(x0, y0, sx, sy, nc, nr, c);
    if c in Block(p, tw, th, nc, nr, q) {
      var i: int, j: int :| 0 <= i < nc && 0 <= j < nr && c == At(x0, y0, sx, sy, i, j);
      var i' := if q % 2 == 0 then i else -(i + 1);
      var j' := if q < 2 then j else -(j + 1);
      BlockOffset(p, tw, th, q, i, j);
      assert InBlock(q, i', j', nc, nr) && c == At(p.x, p.y, tw, th, i', j');
    }
    if exists i: int, j: int :: InBlock(q, i, j, nc, nr) && c == At(p.x, p.y, tw, th, i, j) {
      var i': int, j': int :| InBlock(q, i', j', nc, nr) && c == At(p.x, p.y, tw, th, i', j');
      var i := if q % 2 == 0 then i' else -i' - 1;
      var j := if q < 2 then j' else -j' - 1;
      BlockOffset(p, tw, th, q, i, j);
      assert 0 <= i < nc && 0 <= j < nr && c == At(x0, y0, sx, sy, i, j);
    }
  }

  lemma {:induction false} BlockOffset(p: Point, tw: int, th: int, q: nat, i: int, j: int)
    ensures At(if q % 2 == 0 then p.x else p.x - tw, if q < 2 then p.y else p.y - th,
               if q % 2 == 0 then tw else -tw, if q < 2 then th else -th, i, j) ==
            At(p.x, p.y, tw, th, if q % 2 == 0 then i else -(i + 1), if q < 2 then j else -(j + 1))
  {
    assert p.x - tw + i * -tw == p.x + -(i + 1) * tw;
    assert p.y - th + j * -th == p.y + -(j + 1) * th;
  }

  lemma {:induction false} TileBlocks(p: Point, tw: int, th: int, nc: nat, nr: nat)
    ensures Tile(p, tw, th, nc, nr) == Block(p, tw, th, nc, nr, 0) + Block(p, tw, th, nc, nr, 1) +
                                       Block(p, tw, th, nc, nr, 2) + Block(p, tw, th, nc, nr, 3)
  {
  }

  lemma {:induction false} TileLength(p: Point, tw: int, th: int, nc: nat, nr: nat)
    ensures |Tile(p, tw, th, nc, nr)| == 4 * (nc * nr)
  {
    ColsLength(p.x, p.y, tw, th, nc, nr);
    ColsLength(p.x - tw, p.y, -tw, th, nc, nr);
    ColsLength(p.x, p.y - th, tw, -th, nc, nr);
    ColsLength(p.x - tw, p.y - th, -tw, -th, nc, nr);
  }

  lemma {:induction false} ColsLength(x0: int, y0: int, sx: int, sy: int, nc: nat, nr: nat)
    ensures |Cols(x0, y0, sx, sy, nc, nr)| == nc * nr
    decreases nc
  {
    if nc > 0 {
      ColsLength(x0 + sx, y0, sx, sy, nc - 1, nr);
      assert nr + (nc - 1) * nr == nc * nr;
    }
  }

  /** The tile list holds exactly the brush position moved by i tiles across
    * and j tiles down, for -numcols <= i < numcols and -numrows <= j <
    * numrows. */
  lemma {:induction false} TileMembers(p: Point, tw: int, th: int, nc: nat, nr: nat, c: Point)
    ensures c in Tile(p, tw, th, nc, nr) <==>
            exists i: int, j: int :: -(nc as int) <= i < nc && -(nr as int) <= j < nr && c == At(p.x, p.y, tw, th, i, j)
  {
    TileBlocks(p, tw, th, nc, nr);
    BlockMembers(p, tw, th, nc, nr, 0, c);
    BlockMembers(p, tw, th, nc, nr, 1, c);
    BlockMembers(p, tw, th, nc, nr, 2, c);
    BlockMembers(p, tw, th, nc, nr, 3, c);
    if exists i: int, j: int :: -(nc as int) <= i < nc && -(nr as int) <= j < nr && c == At(p.x, p.y, tw, th, i, j) {
      var i: int, j: int :| -(nc as int) <= i < nc && -(nr as int) <= j < nr && c == At(p.x, p.y, tw, th, i, j);
      var q: nat := (if i >= 0 then 0 else 1) + (if j >= 0 then 0 else 2);
      assert InBlock(q, i, j, nc, nr);
    }
  }

  /** Different blocks share no position when the tile sizes are non-zero. */
  lemma {:induction false} BlocksDisjoint(p: Point, tw: int, th: int, nc: nat, nr: nat, q: nat, q': nat)
    requires tw != 0 && th != 0 && q < q' < 4
    ensures Disjoint(Block(p, tw, th, nc, nr, q), Block(p, tw, th, nc, nr, q'))
  {
    var b := Block(p, tw, th, nc, nr, q);
    forall a | 0 <= a < |b|
      ensures b[a] !in Block(p, tw, th, nc, nr, q')
    {
      BlockMembers(p, tw, th, nc, nr, q, b[a]);
      BlockMembers(p, tw, th, nc, nr, q', b[a]);
      var i: int, j: int :| InBlock(q, i, j, nc, nr) && b[a] == At(p.x, p.y, tw, th, i, j);
      if b[a] in Block(p, tw, th, nc, nr, q') {
        var i': int, j': int :| InBlock(q', i', j', nc, nr) && b[a] == At(p.x, p.y, tw, th, i', j');
        AtInjective(p.x, p.y, tw, th, i, j, i', j');
      }
    }
  }

  lemma {:induction false} DisjointAppend(s: seq<Point>, t: seq<Point>, u: seq<Point>)
    requires Disjoint(s, u) && Disjoint(t, u)
    ensures Disjoint(s + t, u)
  {
    forall a | 0 <= a < |s + t|
      ensures (s + t)[a] !in u
    {
      if a >= |s| {
        assert (s + t)[a] == t[a - |s|];
      }
    }
  }

  /** With non-zero tile sizes no position appears twice. */
  lemma {:induction false} TileNoDup(p: Point, tw: int, th: int, nc: nat, nr: nat)
    requires tw != 0 && th != 0
    ensures NoDup(Tile(p, tw, th, nc, nr))
  {
    var b0 := Block(p, tw, th, nc, nr, 0);
    var b1 := Block(p, tw, th, nc, nr, 1);
    var b2 := Block(p, tw, th, nc, nr, 2);
    var b3 := Block(p, tw, th, nc, nr, 3);
    ColsNoDup(p.x, p.y, tw, th, nc, nr);
    ColsNoDup(p.x - tw, p.y, -tw, th, nc, nr);
    ColsNoDup(p.x, p.y - th, tw, -th, nc, nr);
    ColsNoDup(p.x - tw, p.y - th, -tw, -th, nc, nr);
    BlocksDisjoint(p, tw, th, nc, nr, 0, 1);
    BlocksDisjoint(p, tw, th, nc, nr, 0, 2);
    BlocksDisjoint(p, tw, th, nc, nr, 1, 2);
    BlocksDisjoint(p, tw, th, nc, nr, 0, 3);
    BlocksDisjoint(p, tw, th, nc, nr, 1, 3);
    BlocksDisjoint(p, tw, th, nc, nr, 2, 3);
    NoDupAppend(b0, b1);
    DisjointAppend(b0, b1, b2);
    NoDupAppend(b0 + b1, b2);
    DisjointAppend(b0, b1, b3);
    DisjointAppend(b0 + b1, b2, b3);
    NoDupAppend(b0 + b1 + b2, b3);
    TileBlocks(p, tw, th, nc, nr);
  }

  /** The first copy is the brush position itself. */
  lemma {:induction false} TileFirst(p: Point, tw: int, th: int, nc: nat, nr: nat)
    requires nc > 0 && nr > 0
    ensures |Tile(p, tw, th, nc, nr)| > 0 && Tile(p, tw, th, nc, nr)[0] == p
  {
    var col := Col(p.x, p.y, th, nr);
    assert col == [p] + Col(p.x, p.y + th, th, nr - 1);
    assert Cols(p.x, p.y, tw, th, nc, nr) == col + Cols(p.x + tw, p.y, tw, th, nc - 1, nr);
  }

  /** On a canvas of non-negative size with positive tile sizes numcols is
    * W // tw + 1, so at least one. */
  lemma {:induction false} NumTilesPositive(extent: int, tile: int)
    requires extent >= 0 && tile > 0
    ensures NumTiles(extent, tile) == extent / tile + 1
  {
  }
}
