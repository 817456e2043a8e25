// hline and its span writers (prim.py:1029-1035, 1097-1117, 1119-1218) on
// an indexed-colour surface held as a 2-D array indexed [x, y].

module Spans {
  import opened Support
  import opened Fragments

  // The fill modes of FillMode (prim.py:500-509).
  const SOLID := 0
  const TINT := 1
  const BRUSH := 2
  const WRAP := 3
  const PERSPECTIVE := 4
  const PATTERN := 5
  const VERTICAL := 6
  const VERT_FIT := 7
  const HORIZONTAL := 8
  const HORIZ_FIT := 9

  /** A brush image, cells[x][y], with the colour it treats as transparent. */
  datatype Pattern = Pattern(cells: seq<seq<int>>, bg: int)

  predicate ValidPattern(p: Pattern)
  {
    |p.cells| > 0 && |p.cells[0]| > 0 && forall i | 0 <= i < |p.cells| :: |p.cells[i]| == |p.cells[0]|
  }

  /** What hline reads from the configuration: the fill mode, whether
    * VERT_FIT draws its spans at once, the background and foreground
    * colours, the brush, and whether the colour lies in an active colour
    * range (the colour-range module is not part of this model). */
  datatype Props = Props(mode: int, predraw: bool, bgcolor: int, fgcolor: int,
                         brush: Option<Pattern>, inRange: bool)

  predicate ValidProps(props: Props)
  {
    props.brush.Some? ==> ValidPattern(props.brush.value)
  }

  /** The colour PATTERN mode puts at (x, y): the brush tiled from the
    * origin, and nothing where the brush shows its background. */
  function PatternInk(p: Pattern, x: int, y: int): Option<int>
    requires ValidPattern(p)
  {
    var c := p.cells[x % |p.cells|][y % |p.cells[0]|];
    if c != p.bg then Some(c) else None
  }

  /** The pattern repeats with the brush's width and height. */
  lemma {:induction false} PatternTiles(p: Pattern, x: int, y: int, k: int, l: int)
    requires ValidPattern(p)
    ensures PatternInk(p, x + k * |p.cells|, y + l * |p.cells[0]|) == PatternInk(p, x, y)
  {
    var bw, bh := |p.cells|, |p.cells[0]|;
    assert x + k * bw == bw * (x / bw + k) + x % bw;
    DivModUnique(x + k * bw, bw, x / bw + k, x % bw);
    assert y + l * bh == bh * (y / bh + l) + y % bh;
    DivModUnique(y + l * bh, bh, y / bh + l, y % bh);
  }

  /** The colour hline puts at column x of row y, or None where it leaves the
    * pixel alone. `shade` stands for the stretched brush of BRUSH and WRAP
    * and for the gradient of the colour-range modes, which are not part of
    * this model. */
  function Ink(props: Props, shade: int -> Option<int>, color: int, x: int, y: int): Option<int>
    requires ValidProps(props)
  {
    if props.mode == SOLID || color == props.bgcolor then Some(color)
    else if props.mode == BRUSH || props.mode == WRAP || props.mode == PATTERN then
      if props.brush.None? then Some(props.fgcolor)
      else if props.mode == PATTERN then PatternInk(props.brush.value, x, y)
      else shade(x)
    else if props.mode == VERT_FIT then
      if props.predraw then Some(color) else None
    else if props.mode >= VERTICAL then
      if props.inRange then shade(x) else Some(color)
    else None
  }

  function Apply(ink: Option<int>, v: int): int
  {
    if ink.Some? then ink.value else v
  }

  /** (i, j) is a pixel of the w by h canvas on the segment from x1 to x2 of
    * row y, in either order. */
  predicate OnSegment(w: int, h: int, y: int, x1: int, x2: int, i: int, j: int)
  {
    0 <= j < h && j == y && 0 <= i < w && Min(x1, x2) <= i <= Max(x1, x2)
  }

  /** The vertical-fragment hash after add_vline(y, xs1, xs2). */
  function VlineAdded(m: map<int, seq<Frag>>, y: int, xs1: int, xs2: int): map<int, seq<Frag>>
  {
    map x | x in m.Keys + Interval(xs1, xs2) :: if xs1 <= x <= xs2 then Insert(Get(m, x), y) else m[x]
  }

  /** Writes ink(x) over every column x in [xs1, xs2] of row y: the slice
    * assignment of hline_SOLID and the loops of the other span writers. */
  method PaintSpan(a: array2<int>, ink: int -> Option<int>, y: int, xs1: int, xs2: int)
    requires 0 <= y < a.Length1 && 0 <= xs1 && xs2 < a.Length0
    modifies a
    ensures forall i, j | 0 <= i < a.Length0 && 0 <= j < a.Length1 ::
              a[i, j] == if j == y && xs1 <= i <= xs2 then Apply(ink(i), old(a[i, j])) else old(a[i, j])
  {
    var x := xs1;
    while x <= xs2
      invariant xs1 <= x && (xs1 <= xs2 ==> x <= xs2 + 1) && (xs2 < xs1 ==> x == xs1)
      invariant forall i, j | 0 <= i < a.Length0 && 0 <= j < a.Length1 ::
                  a[i, j] == if j == y && xs1 <= i < x then Apply(ink(i), old(a[i, j])) else old(a[i, j])
    {
      var c := ink(x);
      if c.Some? {
        a[x, y] := c.value;
      }
      x := x + 1;
    }
  }

  /** hline on an indexed surface: nothing outside the on-canvas part of the
    * segment changes; each pixel of that part gets the mode's ink; VERT_FIT
    * also records the clipped span in the vertical-fragment hash. */
  method Hline(a: array2<int>, vl: VLines, props: Props, shade: int -> Option<int>, color: int, y: int, x1: int, x2: int)
    requires ValidProps(props)
    modifies a, vl
    ensures forall i, j | 0 <= i < a.Length0 && 0 <= j < a.Length1 ::
              a[i, j] == if OnSegment(a.Length0, a.Length1, y, x1, x2, i, j)
                         then Apply(Ink(props, shade, color, i, j), old(a[i, j])) else old(a[i, j])
    ensures vl.vlines == if props.mode == VERT_FIT && color != props.bgcolor && 0 <= y < a.Length1
                         then VlineAdded(old(vl.vlines), y, Max(0, Min(x1, x2)), Min(a.Length0 - 1, Max(x1, x2)))
                         else old(vl.vlines)
  {
    var w, h := a.Length0, a.Length1;
    if y < 0 || y >= h {
      return;
    }
    if (x1 < 0 && x2 < 0) || (x1 > w && x2 > w) {
      VlineAddedEmpty(vl.vlines, y, Max(0, Min(x1, x2)), Min(w - 1, Max(x1, x2)));
      return;
    }
    var lo, hi := x1, x2;
    if lo > hi {
      lo, hi := x2, x1;
    }
    var xs1, xs2 := lo, hi;
    if xs1 < 0 {
      xs1 := 0;
    }
    if xs2 > w - 1 {
      xs2 := w - 1;
    }
    var inkOf := x => Ink(props, shade, color, x, y);
    if props.mode == VERT_FIT && color != props.bgcolor {
      if props.predraw {
        PaintSpan(a, inkOf, y, xs1, xs2);
      }
      RecordSpan(vl, y, xs1, xs2);
    } else {
      PaintSpan(a, inkOf, y, xs1, xs2);
    }
    ClipSpan(w, h, y, x1, x2, xs1, xs2);
  }

  /** add_vline as VERT_FIT calls it from hline. */
  method RecordSpan(vl: VLines, y: int, xs1: int, xs2: int)
    modifies vl
    ensures vl.vlines == VlineAdded(old(vl.vlines), y, xs1, xs2)
  {
    vl.AddVline(y, xs1, xs2);
  }

  /** The clipped span [xs1, xs2] is the on-canvas part of the segment. */
  lemma ClipSpan(w: int, h: int, y: int, x1: int, x2: int, xs1: int, xs2: int)
    requires 0 <= y < h && xs1 == Max(0, Min(x1, x2)) && xs2 == Min(w - 1, Max(x1, x2))
    ensures forall i, j | 0 <= i < w && 0 <= j < h :: OnSegment(w, h, y, x1, x2, i, j) <==> j == y && xs1 <= i <= xs2
  {
  }

  lemma VlineAddedEmpty(m: map<int, seq<Frag>>, y: int, xs1: int, xs2: int)
    requires xs2 < xs1
    ensures VlineAdded(m, y, xs1, xs2) == m
  {
    assert Interval(xs1, xs2) == {};
  }
}
