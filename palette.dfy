// Palette helpers of config.py: quantize_palette (52-60), the colour-skew
// table (62-68) and unique_palette (70-92).

module Palette {
  import opened Support

  /** One channel cut to 4 bits and widened back to 8: c // 16 * 17. */
  function Quantize(c: byte): byte
  {
    c / 16 * 17
  }

  function QuantizeColor(c: Color): Color
  {
    Color(Quantize(c.r), Quantize(c.g), Quantize(c.b))
  }

  /** quantize_palette: every entry quantised at depth 16, the palette
    * unchanged at any other depth. */
  function QuantizePalette(pal: seq<Color>, depth: int): seq<Color>
  {
    if depth == 16 then seq(|pal|, i requires 0 <= i < |pal| => QuantizeColor(pal[i])) else pal
  }

  /** A quantised channel is one of the 16 levels 0, 17, ..., 255, keeps the
    * level c // 16 of its input and lies within 15 of it. */
  lemma {:induction false} QuantizeLevel(c: byte)
    ensures Quantize(c) % 17 == 0 && Quantize(c) / 16 == c / 16
    ensures c - 15 <= Quantize(c) <= c + 15
  {
    var q := c / 16;
    assert Quantize(c) == 16 * q + q;
    DivModUnique(Quantize(c), 16, q, q);
    DivModUnique(Quantize(c), 17, q, 0);
  }

  /** The channels quantisation leaves alone are exactly the multiples of 17. */
  lemma {:induction false} QuantizeFixed(c: byte)
    ensures Quantize(c) == c <==> c % 17 == 0
  {
    QuantizeLevel(c);
    if c % 17 == 0 {
      var q := c / 17;
      assert c == 16 * q + q;
      DivModUnique(c, 16, q, q);
    }
  }

  /** quantize_palette keeps the length, quantises every channel at depth 16
    * to a multiple of 17 within 15 of the original, and is the identity at
    * every other depth. */
  lemma {:induction false} QuantizePaletteShape(pal: seq<Color>, depth: int)
    ensures |QuantizePalette(pal, depth)| == |pal|
    ensures depth != 16 ==> QuantizePalette(pal, depth) == pal
    ensures depth == 16 ==> forall i | 0 <= i < |pal| ::
              var q, c := QuantizePalette(pal, depth)[i], pal[i];
              q.r % 17 == 0 && q.g % 17 == 0 && q.b % 17 == 0 &&
              Abs(q.r - c.r) <= 15 && Abs(q.g - c.g) <= 15 && Abs(q.b - c.b) <= 15
  {
    if depth == 16 {
      forall i | 0 <= i < |pal|
        ensures var q, c := QuantizePalette(pal, depth)[i], pal[i];
                q.r % 17 == 0 && q.g % 17 == 0 && q.b % 17 == 0 &&
                Abs(q.r - c.r) <= 15 && Abs(q.g - c.g) <= 15 && Abs(q.b - c.b) <= 15
      {
        QuantizeLevel(pal[i].r);
        QuantizeLevel(pal[i].g);
        QuantizeLevel(pal[i].b);
      }
    }
  }

  /** Quantising an already quantised palette changes nothing. */
  lemma {:induction false} QuantizeIdempotent(pal: seq<Color>, depth: int)
    ensures QuantizePalette(QuantizePalette(pal, depth), depth) == QuantizePalette(pal, depth)
  {
    if depth == 16 {
      var q := QuantizePalette(pal, depth);
      forall i | 0 <= i < |pal|
        ensures QuantizeColor(q[i]) == q[i]
      {
        QuantizeLevel(pal[i].r);
        QuantizeLevel(pal[i].g);
        QuantizeLevel(pal[i].b);
        QuantizeFixed(q[i].r);
        QuantizeFixed(q[i].g);
        QuantizeFixed(q[i].b);
      }
    }
  }

  // ---------------------------------------------------------------------
  // The colour-skew table.

  /** A signed change to each channel of a colour. */
  datatype Offset = Offset(dr: int, dg: int, db: int)

  /** The skew of one channel for the counter n >= 1: n // 2, negated for
    * even n, so 1, 2, 3, 4, 5, ... give 0, -1, 1, -2, 2, ... */
  function Skew(n: int): int
  {
    (n / 2) * ((n % 2) * 2 - 1)
  }

  /** The entries of the innermost loop for b = 1, ..., hi - 1. */
  function SkewB(r: int, g: int, hi: int): seq<Offset>
    decreases hi
  {
    if hi <= 1 then [] else SkewB(r, g, hi - 1) + [Offset(Skew(r), Skew(g), Skew(hi - 1))]
  }

  /** The entries of the middle loop for g = 1, ..., hi - 1. */
  function SkewG(r: int, hi: int): seq<Offset>
    decreases hi
  {
    if hi <= 1 then [] else SkewG(r, hi - 1) + SkewB(r, hi - 1, hi)
  }

  /** The entries of the outer loop for r = 2, ..., hi - 1. */
  function SkewR(hi: int): seq<Offset>
    decreases hi
  {
    if hi <= 2 then [] else SkewR(hi - 1) + SkewG(hi - 1, hi)
  }

  /** color_skew: r from 2 to 15, g from 1 to r, b from 1 to g. */
  function ColorSkew(): seq<Offset>
  {
    SkewR(16)
  }

  /** The module-level loops that build color_skew. */
  method MakeColorSkew() returns (skew: seq<Offset>)
    ensures skew == ColorSkew()
  {
    skew := [];
    for r := 2 to 16
      invariant skew == SkewR(r)
    {
      var block := SkewBlock(r);
      skew := skew + block;
    }
  }

  /** The middle loop for one r: g from 1 to r. */
  method SkewBlock(r: int) returns (block: seq<Offset>)
    requires r >= 2
    ensures block == SkewG(r, r + 1)
  {
    block := [];
    for g := 1 to r + 1
      invariant block == SkewG(r, g)
    {
      var row := SkewRow(r, g);
      block := block + row;
    }
  }

  /** The innermost loop for one r and g: b from 1 to g. */
  method SkewRow(r: int, g: int) returns (row: seq<Offset>)
    requires g >= 1
    ensures row == SkewB(r, g, g + 1)
  {
    row := [];
    for b := 1 to g + 1
      invariant row == SkewB(r, g, b)
    {
      row := row + [Offset(Skew(r), Skew(g), Skew(b))];
    }
  }

  predicate Small(o: Offset)
  {
    -7 <= o.dr <= 7 && -7 <= o.dg <= 7 && -7 <= o.db <= 7
  }

  lemma {:induction false} SkewBounds(n: int)
    requires 1 <= n <= 15
    ensures -7 <= Skew(n) <= 7 && Abs(Skew(n)) == n / 2
  {
  }

  lemma {:induction false} SkewBSmall(r: int, g: int, hi: int)
    requires 1 <= r <= 15 && 1 <= g <= 15 && hi <= 16
    ensures forall k | 0 <= k < |SkewB(r, g, hi)| :: Small(SkewB(r, g, hi)[k])
    decreases hi
  {
    if hi > 1 {
      SkewBounds(r);
      SkewBounds(g);
      SkewBounds(hi - 1);
      SkewBSmall(r, g, hi - 1);
    }
  }

  lemma {:induction false} SkewGSmall(r: int, hi: int)
    requires 1 <= r <= 15 && hi <= 16
    ensures forall k | 0 <= k < |SkewG(r, hi)| :: Small(SkewG(r, hi)[k])
    decreases hi
  {
    if hi > 1 {
      SkewBSmall(r, hi - 1, hi);
      SkewGSmall(r, hi - 1);
    }
  }

  lemma {:induction false} SkewRSmall(hi: int)
    requires hi <= 16
    ensures forall k | 0 <= k < |SkewR(hi)| :: Small(SkewR(hi)[k])
    decreases hi
  {
    if hi > 2 {
      SkewGSmall(hi - 1, hi);
      SkewRSmall(hi - 1);
    }
  }

  /** No entry of color_skew moves a channel by more than 7. */
  lemma ColorSkewSmall()
    ensures forall k | 0 <= k < |ColorSkew()| :: Small(ColorSkew()[k])
  {
    SkewRSmall(16);
  }

  lemma {:induction false} SkewBLength(r: int, g: int, hi: int)
    requires hi >= 1
    ensures |SkewB(r, g, hi)| == hi - 1
    decreases hi
  {
    if hi > 1 {
      SkewBLength(r, g, hi - 1);
    }
  }

  lemma {:induction false} SkewGLength(r: int, hi: int)
    requires hi >= 1
    ensures 2 * |SkewG(r, hi)| == hi * hi - hi
    decreases hi
  {
    if hi > 1 {
      SkewBLength(r, hi - 1, hi);
      SkewGLength(r, hi - 1);
      Powers(hi - 1);
    }
  }

  /** 6 |SkewR(hi)| = hi^3 - hi - 6; at hi = 16, color_skew's 679 entries. */
  lemma {:induction false} SkewRLength(hi: int)
    requires hi >= 2
    ensures 6 * |SkewR(hi)| == hi * hi * hi - hi - 6
    decreases hi
  {
    if hi > 2 {
      SkewGLength(hi - 1, hi);
      SkewRLength(hi - 1);
      Powers(hi - 1);
    }
  }

  lemma {:induction false} Powers(c: int)
    ensures (c + 1) * (c + 1) == c * c + 2 * c + 1
    ensures (c + 1) * (c + 1) * (c + 1) == c * c * c + 3 * (c * c) + 3 * c + 1
  {
    assert (c + 1) * (c + 1) == c * c + 2 * c + 1;
    calc {
      (c + 1) * (c + 1) * (c + 1);
      (c * c + 2 * c + 1) * (c + 1);
      c * c * c + 3 * (c * c) + 3 * c + 1;
    }
  }

  // ---------------------------------------------------------------------
  // unique_palette.

  /** A base colour moved by an offset, before any range check. */
  function Moved(c: Color, o: Offset): (int, int, int)
  {
    (c.r + o.dr, c.g + o.dg, c.b + o.db)
  }

  predicate InRange(t: (int, int, int))
  {
    0 <= t.0 <= 255 && 0 <= t.1 <= 255 && 0 <= t.2 <= 255
  }

  function AsColor(t: (int, int, int)): Color
    requires InRange(t)
  {
    Color(t.0, t.1, t.2)
  }

  /** The first skewed colour from entry j of the table on that is on the
    * screen and not yet used, or None when the table runs out (the
    * IndexError of color_skew[j]). */
  function FirstFree(c: Color, used: set<Color>, skew: seq<Offset>, j: nat): Option<Color>
    decreases |skew| - j
  {
    if j >= |skew| then None
    else
      var t := Moved(c, skew[j]);
      if InRange(t) && AsColor(t) !in used then Some(AsColor(t))
      else FirstFree(c, used, skew, j + 1)
  }

  /** The colour unique_palette picks for c given the colours already used. */
  function Pick(c: Color, used: set<Color>, skew: seq<Offset>): Option<Color>
  {
    if c !in used then Some(c) else FirstFree(c, used, skew, 0)
  }

  /** Running out of color_skew raises IndexError. */
  datatype PaletteError = IndexError

  function Elems(s: seq<Color>): set<Color>
  {
    set x | x in s
  }

  /** The palette unique_palette returns for pal with the skew table skew:
    * each entry is picked against all the entries picked before it; the
    * whole call fails when one entry finds no free colour. */
  function Unique(pal: seq<Color>, skew: seq<Offset>): Result<seq<Color>, PaletteError>
  {
    if pal == [] then Ok([])
    else
      match Unique(pal[..|pal| - 1], skew)
      case Err(e) => Err(e)
      case Ok(np) =>
        match Pick(pal[|pal| - 1], Elems(np), skew)
        case None => Err(IndexError)
        case Some(c) => Ok(np + [c])
  }

  /** The inner while loop of unique_palette: starting from the entry
    * itself, try each skew in turn until the colour is on the screen and
    * not in paldict. */
  method PickColor(c: Color, paldict: set<Color>, skew: seq<Offset>) returns (r: Option<Color>)
    ensures r == Pick(c, paldict, skew)
  {
    var col := (c.r, c.g, c.b);
    var j := 0;
    var outOfRange := false;
    while outOfRange || (InRange(col) && AsColor(col) in paldict)
      invariant 0 <= j <= |skew|
      invariant j == 0 ==> col == (c.r, c.g, c.b) && !outOfRange
      invariant j > 0 ==> col == Moved(c, skew[j - 1]) && outOfRange == !InRange(col)
      invariant j > 0 ==> Pick(c, paldict, skew) == FirstFree(c, paldict, skew, j - 1)
      decreases |skew| - j
    {
      if j >= |skew| {
        return None;
      }
      outOfRange := false;
      col := Moved(c, skew[j]);
      if !(0 <= col.0 <= 255 && 0 <= col.1 <= 255 && 0 <= col.2 <= 255) {
        outOfRange := true;
      }
      j := j + 1;
    }
    r := Some(AsColor(col));
  }

  /** unique_palette over the skew table skew (color_skew in the program). */
  method UniquePalette(pal: seq<Color>, skew: seq<Offset>) returns (r: Result<seq<Color>, PaletteError>)
    ensures r == Unique(pal, skew)
  {
    var newpal: seq<Color> := [];
    var paldict: set<Color> := {};
    for i := 0 to |pal|
      invariant Unique(pal[..i], skew) == Ok(newpal) && paldict == Elems(newpal)
    {
      assert pal[..i + 1][..i] == pal[..i];
      var col := PickColor(pal[i], paldict, skew);
      if col.None? {
        UniqueErrStays(pal, i + 1, skew);
        return Err(IndexError);
      }
      newpal := newpal + [col.value];
      paldict := paldict + {col.value};
    }
    assert pal[..|pal|] == pal;
    r := Ok(newpal);
  }

  /** p is c moved by some offset of the table. */
  predicate Skewed(c: Color, p: Color, skew: seq<Offset>)
  {
    exists k | 0 <= k < |skew| :: Moved(c, skew[k]) == (p.r, p.g, p.b)
  }

  /** Once a prefix of the palette fails, the whole palette fails. */
  lemma {:induction false} UniqueErrStays(pal: seq<Color>, n: nat, skew: seq<Offset>)
    requires n <= |pal| && Unique(pal[..n], skew).Err?
    ensures Unique(pal, skew) == Err(IndexError)
    decreases |pal| - n
  {
    if n < |pal| {
      var p := pal[..n + 1];
      assert p[..|p| - 1] == pal[..n];
      UniqueErrStays(pal, n + 1, skew);
    } else {
      assert pal[..n] == pal;
      assert Unique(pal, skew).error.IndexError?;
    }
  }

  /** A successful unique_palette keeps the length, makes every entry
    * different from all the others, keeps every entry that differs from
    * all the entries before it, and otherwise uses the entry moved by some
    * offset of the table. */
  lemma {:induction false} UniqueSound(pal: seq<Color>, skew: seq<Offset>)
    requires Unique(pal, skew).Ok?
    ensures var np := Unique(pal, skew).value;
            |np| == |pal| &&
            (forall i, j | 0 <= i < j < |np| :: np[i] != np[j]) &&
            (forall i | 0 <= i < |np| && pal[i] !in np[..i] :: np[i] == pal[i]) &&
            (forall i | 0 <= i < |np| && np[i] != pal[i] :: Skewed(pal[i], np[i], skew))
  {
    if pal != [] {
      var init := pal[..|pal| - 1];
      UniqueSound(init, skew);
      var np0 := Unique(init, skew).value;
      var c := pal[|pal| - 1];
      var p := Pick(c, Elems(np0), skew).value;
      var np := np0 + [p];
      assert Unique(pal, skew) == Ok(np);
      PickSound(c, Elems(np0), skew);
      assert np[..|np0|] == np0;
      forall i | 0 <= i < |np| && pal[i] !in np[..i]
        ensures np[i] == pal[i]
      {
        if i < |np0| {
          assert np[..i] == np0[..i];
        } else {
          assert np0 == np[..i];
        }
      }
    }
  }

  /** The picked colour is free, is the entry itself when that is free, and
    * is otherwise the entry moved by an offset of the table. */
  lemma {:induction false} PickSound(c: Color, used: set<Color>, skew: seq<Offset>)
    requires Pick(c, used, skew).Some?
    ensures var p := Pick(c, used, skew).value;
            p !in used && (c !in used ==> p == c) &&
            (p != c ==> Skewed(c, p, skew))
  {
    if c in used {
      FirstFreeSound(c, used, skew, 0);
    }
  }

  lemma {:induction false} FirstFreeSound(c: Color, used: set<Color>, skew: seq<Offset>, j: nat)
    requires FirstFree(c, used, skew, j).Some?
    ensures var p := FirstFree(c, used, skew, j).value;
            p !in used && exists k | j <= k < |skew| :: Moved(c, skew[k]) == (p.r, p.g, p.b)
    decreases |skew| - j
  {
    var t := Moved(c, skew[j]);
    if !(InRange(t) && AsColor(t) !in used) {
      FirstFreeSound(c, used, skew, j + 1);
    }
  }

  /** A palette whose entries already differ is returned unchanged. */
  lemma {:induction false} UniqueDistinct(pal: seq<Color>, skew: seq<Offset>)
    requires forall i, j | 0 <= i < j < |pal| :: pal[i] != pal[j]
    ensures Unique(pal, skew) == Ok(pal)
  {
    if pal != [] {
      var init := pal[..|pal| - 1];
      UniqueDistinct(init, skew);
      assert pal[|pal| - 1] !in Elems(init);
      assert init + [pal[|pal| - 1]] == pal;
    }
  }

  /** With a table of small offsets, such as color_skew, every replacement
    * colour lies within 7 of its entry in each channel. */
  lemma UniqueNear(pal: seq<Color>, skew: seq<Offset>)
    requires forall k | 0 <= k < |skew| :: Small(skew[k])
    requires Unique(pal, skew).Ok?
    ensures var np := Unique(pal, skew).value;
            |np| == |pal| && forall i | 0 <= i < |np| :: Near(pal[i], np[i])
  {
    UniqueSound(pal, skew);
    var np := Unique(pal, skew).value;
    forall i | 0 <= i < |np|
      ensures Near(pal[i], np[i])
    {
      if np[i] != pal[i] {
        SkewedNear(pal[i], np[i], skew);
      }
    }
  }

  predicate Near(c: Color, p: Color)
  {
    Abs(p.r - c.r) <= 7 && Abs(p.g - c.g) <= 7 && Abs(p.b - c.b) <= 7
  }

  lemma SkewedNear(c: Color, p: Color, skew: seq<Offset>)
    requires forall k | 0 <= k < |skew| :: Small(skew[k])
    requires Skewed(c, p, skew)
    ensures Near(c, p)
  {
    var k :| 0 <= k < |skew| && Moved(c, skew[k]) == (p.r, p.g, p.b);
    assert Small(skew[k]);
  }
}
