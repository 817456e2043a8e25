// The Brush class of prim.py (178-270): its construction, the size and type
// setters that recompute the handle and the on-screen rectangle, and the
// per-colour cache of rendered images the setters replace.

module Brushes {
  import opened Support
  import opened Geometry

  // Brush types (prim.py:191-194).
  const CUSTOM := 0
  const CIRCLE := 1
  const SQUARE := 2
  const SPRAY := 3

  const CACHE_SLOTS := 256

  /** The cache of rendered images, one slot per colour: every slot starts
    * with no image, type -1 and background -1. */
  class BrushCache {
    var images: seq<bool>
    var types: seq<int>
    var bgcolors: seq<int>

    ghost predicate Empty()
      reads this
    {
      |images| == CACHE_SLOTS && |types| == CACHE_SLOTS && |bgcolors| == CACHE_SLOTS &&
      (forall i | 0 <= i < CACHE_SLOTS :: !images[i]) &&
      (forall i | 0 <= i < CACHE_SLOTS :: types[i] == -1) &&
      (forall i | 0 <= i < CACHE_SLOTS :: bgcolors[i] == -1)
    }

    constructor ()
      ensures Empty()
    {
      var im, ty, bg := [], [], [];
      var i := 0;
      while i < CACHE_SLOTS
        invariant 0 <= i <= CACHE_SLOTS && |im| == i && |ty| == i && |bg| == i
        invariant forall k | 0 <= k < i :: !im[k] && ty[k] == -1 && bg[k] == -1
      {
        im, ty, bg := im + [false], ty + [-1], bg + [-1];
        i := i + 1;
      }
      images, types, bgcolors := im, ty, bg;
    }
  }

  /** The geometry of a brush: its type, size, handle and rectangle. */
  datatype Shape = Shape(kind: int, size: int, handle: Point, rect: Rect)

  /** What the size setter makes of a shape when asked for size s: the size
    * is clamped to [1, 100], a too-small SQUARE or SPRAY becomes a CIRCLE,
    * and the handle and rectangle are recomputed for the built-in types. */
  function Resized(g: Shape, s: int): Shape
  {
    var size := if s < 1 then 1 else if s > 100 then 100 else s;
    var kind := if s < 1 && (g.kind == SQUARE || g.kind == SPRAY) then CIRCLE else g.kind;
    if kind == SQUARE then
      var h := (size + 1) / 2;
      Shape(kind, size, Point(h, h), Rect(-h, -h, size, size))
    else if kind == CIRCLE || kind == SPRAY then
      if size == 1 then Shape(kind, size, Point(0, 0), Rect(0, 0, 1, 1))
      else Shape(kind, size, Point(size, size), Rect(-size, -size, size * 2, size * 2))
    else Shape(kind, size, g.handle, g.rect)
  }

  /** The width and height of the image render_image draws for a built-in
    * brush (prim.py:290-316). */
  function ImageSide(kind: int, size: int): int
  {
    if kind == CIRCLE then (if size == 1 then 1 else size * 2 + 1)
    else if kind == SQUARE then size + 1
    else size * 3 + 1
  }

  /** The setter always leaves a size in [1, 100], keeps a size already in
    * range, and changes the type only from SQUARE or SPRAY to CIRCLE for a
    * size below 1. */
  lemma ResizedBounds(g: Shape, s: int)
    ensures 1 <= Resized(g, s).size <= 100
    ensures 1 <= s <= 100 ==> Resized(g, s).size == s
    ensures s > 100 ==> Resized(g, s).size == 100
    ensures Resized(g, s).kind != g.kind <==> s < 1 && (g.kind == SQUARE || g.kind == SPRAY)
    ensures Resized(g, s).kind != g.kind ==> Resized(g, s).kind == CIRCLE
  {
  }

  /** Setting the same size twice is setting it once. */
  lemma {:induction false} ResizedIdempotent(g: Shape, s: int)
    ensures Resized(Resized(g, s), s) == Resized(g, s)
  {
  }

  /** Re-applying the brush's own size, as the type setter does, changes
    * nothing. */
  lemma {:induction false} ResizedStable(g: Shape, s: int)
    ensures Resized(Resized(g, s), Resized(g, s).size) == Resized(g, s)
  {
  }

  /** For CIRCLE and SQUARE brushes the handle is the centre of the image
    * render_image draws, and the rectangle starts at minus the handle. */
  lemma HandleCentred(g: Shape, s: int)
    requires Resized(g, s).kind == CIRCLE || Resized(g, s).kind == SQUARE
    ensures var r := Resized(g, s);
            r.handle.x == r.handle.y == ImageSide(r.kind, r.size) / 2 &&
            r.rect.x == -r.handle.x && r.rect.y == -r.handle.y &&
            0 <= r.handle.x < ImageSide(r.kind, r.size)
  {
  }

  class Brush {
    var kind: int
    var size: int
    var handle: Point
    var rect: Rect
    var bgcolor: int
    var cache: BrushCache

    function Layout(): Shape
      reads this
    {
      Shape(kind, size, handle, rect)
    }

    /** __init__: a CUSTOM brush takes its size and handle from the grabbed
      * rectangle between coordfrom and coordto (its image, copied from the
      * screen, is not part of this model); the others from size. */
    constructor (kind: int, size: int, bgcolor: int, coordfrom: Point, coordto: Point)
      ensures this.kind == kind && this.bgcolor == bgcolor && fresh(cache) && cache.Empty()
      ensures kind == CUSTOM ==>
                var w := Abs(coordto.x - coordfrom.x) + 1;
                var h := Abs(coordto.y - coordfrom.y) + 1;
                handle == Point(w / 2, h / 2) && this.size == (w + h) / 2 && rect == Rect(-(w / 2), -(h / 2), w, h)
      ensures kind != CUSTOM ==>
                this.size == size && handle == Point(size / 2, size / 2) && rect == Rect(-(size / 2), -(size / 2), size, size)
    {
      this.kind := kind;
      this.bgcolor := bgcolor;
      if kind == CUSTOM {
        var x1, y1 := coordfrom.x, coordfrom.y;
        var x2, y2 := coordto.x, coordto.y;
        if x1 > x2 {
          x1, x2 := x2, x1;
        }
        if y1 > y2 {
          y1, y2 := y2, y1;
        }
        var w := x2 - x1 + 1;
        var h := y2 - y1 + 1;
        handle := Point(w / 2, h / 2);
        this.size := (w + h) / 2;
        rect := Rect(-(w / 2), -(h / 2), w, h);
      } else {
        this.size := size;
        handle := Point(size / 2, size / 2);
        rect := Rect(-(size / 2), -(size / 2), size, size);
      }
      cache := new BrushCache();
    }

    /** The size setter: the geometry becomes Resized(old geometry, s) and a
      * fresh, empty cache replaces the old one. */
    method SetSize(s: int)
      modifies this
      ensures Layout() == Resized(old(Layout()), s)
      ensures bgcolor == old(bgcolor) && fresh(cache) && cache.Empty()
    {
      var sz := s;
      if sz < 1 {
        sz := 1;
        if kind == SQUARE || kind == SPRAY {
          kind := CIRCLE;
        }
      } else if sz > 100 {
        sz := 100;
      }
      size := sz;
      cache := new BrushCache();
      if kind == SQUARE {
        handle := Point((sz + 1) / 2, (sz + 1) / 2);
        rect := Rect(-handle.x, -handle.y, sz, sz);
      } else if kind == CIRCLE || kind == SPRAY {
        if sz == 1 {
          handle := Point(0, 0);
          rect := Rect(0, 0, 1, 1);
        } else {
          handle := Point(sz, sz);
          rect := Rect(-handle.x, -handle.y, sz * 2, sz * 2);
        }
      }
    }

    /** The type setter: a new type is installed and the size setter re-run
      * on the current size; the same type changes nothing. */
    method SetType(t: int)
      modifies this
      ensures t == old(kind) ==> Layout() == old(Layout()) && cache == old(cache)
      ensures t != old(kind) ==> Layout() == Resized(old(Layout()).(kind := t), old(size)) && fresh(cache) && cache.Empty()
      ensures bgcolor == old(bgcolor)
    {
      if t != kind {
        kind := t;
        SetSize(size);
      }
    }
  }
}
