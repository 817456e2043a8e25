// Planar and chunky pixel layouts of an ILBM picture (picio.py).
//
// An ILBM BODY stores each picture row as nPlanes bitplanes of w2b(width)
// bytes; bit 7 of byte k of a plane belongs to pixel 8k, bit 0 to pixel
// 8k+7, and plane i holds bit i of every pixel. A chunky surface is indexed
// [x][y], as pygame's surfarray is.

module Planar {
  import opened Support

  /** w2b (picio.py:29-30): bytes per bitplane row, rounded up to a 16-pixel word. */
  function W2B(w: int): int
  {
    FloorDiv(w + 15, 16) * 2
  }

  /** For a width w >= 0 a row holds 8*w2b(w) pixels: at least w, fewer than w+16,
    * a whole number of 16-bit words, and exactly w when w is a multiple of 16. */
  lemma {:induction false} W2BBounds(w: int)
    requires w >= 0
    ensures W2B(w) >= 0 && W2B(w) % 2 == 0
    ensures w <= 8 * W2B(w) < w + 16
    ensures 8 * W2B(w) == w <==> w % 16 == 0
  {
    FloorDivPositive(w + 15, 16);
  }

  /** A numpy array of shape (h, n, w): planes[y][i][k] is byte k of plane i of row y. */
  type Planes = seq<seq<seq<byte>>>

  predicate Shaped(p: Planes, h: nat, n: nat, w: nat)
  {
    |p| == h && forall y :: 0 <= y < h ==> |p[y]| == n && forall i :: 0 <= i < n ==> |p[y][i]| == w
  }

  // ---------------------------------------------------------------------
  // Planar to chunky (picio.py:53-77)

  /** What p2c leaves of byte v for plane i looking at bit `bit`: the masked
    * bit `v & (1 << bit)`, shifted right by bit-i or left by i-bit in a
    * uint8 array (bits shifted past bit 7 are lost). */
  function ShiftedBit(v: byte, bit: nat, i: nat): byte
    requires bit < 8
  {
    var m := Mask(v, bit);
    if bit > i then Shr(m, bit - i)
    else if bit < i then Shl(m, i - bit)
    else m
  }

  /** `v & (1 << bit)`. */
  function Mask(v: byte, bit: nat): byte
    requires bit < 8
  {
    if Bit(v, bit) == 1 then Single(bit) else 0
  }

  /** `1 << b` as a uint8 value. */
  function Single(b: nat): byte
    requires b < 8
  {
    Pow2Below8(b);
    Pow2(b)
  }

  /** `>>= s` on a uint8 element. */
  function Shr(m: byte, s: nat): byte
  {
    if s == 0 then m else Shr(m / 2, s - 1)
  }

  /** `<<= s` on a uint8 element: bits moved past bit 7 are dropped. */
  function Shl(m: byte, s: nat): byte
    decreases s
  {
    if s == 0 then m else Shl((2 * m) % 256, s - 1)
  }

  lemma {:induction false} Pow2Below8(bit: nat)
    requires bit < 8
    ensures Pow2(bit) <= 128
  {
    assert Pow2(0) == 1 && Pow2(1) == 2 && Pow2(2) == 4 && Pow2(3) == 8;
    assert Pow2(4) == 16 && Pow2(5) == 32 && Pow2(6) == 64 && Pow2(7) == 128;
  }

  lemma {:induction false} ShrZero(s: nat)
    ensures Shr(0, s) == 0
  {
    if s > 0 {
      ShrZero(s - 1);
    }
  }

  lemma {:induction false} ShlZero(s: nat)
    ensures Shl(0, s) == 0
  {
    if s > 0 {
      ShlZero(s - 1);
    }
  }

  /** Shifting the single bit 2^b right by s <= b leaves 2^(b-s). */
  lemma {:induction false} ShrPow2(b: nat, s: nat)
    requires b < 8 && s <= b
    ensures Shr(Single(b), s) == Single(b - s)
  {
    if s > 0 {
      assert Single(b) / 2 == Single(b - 1);
      ShrPow2(b - 1, s - 1);
    }
  }

  /** Shifting the single bit 2^b left by s keeps it while it stays below bit 8. */
  lemma {:induction false} ShlPow2(b: nat, s: nat)
    requires b < 8
    ensures Shl(Single(b), s) == if b + s < 8 then Single(b + s) else 0
    decreases s
  {
    if s > 0 {
      if b + 1 < 8 {
        assert (2 * Single(b)) % 256 == Single(b + 1);
        ShlPow2(b + 1, s - 1);
      } else {
        assert Single(b) == 128 by { Pow2Below8(7); }
        assert (2 * Single(b)) % 256 == 0;
        ShlZero(s - 1);
      }
    }
  }

  /** The shift moves bit `bit` of v to position i, and to nowhere from plane 8 on. */
  lemma {:induction false} ShiftedBitValue(v: byte, bit: nat, i: nat)
    requires bit < 8
    ensures ShiftedBit(v, bit, i) == if i < 8 then Bit(v, bit) * Pow2(i) else 0
  {
    if Bit(v, bit) == 0 {
      ShrZero(if bit > i then bit - i else 0);
      ShlZero(if bit < i then i - bit else 0);
    } else if bit > i {
      ShrPow2(bit, bit - i);
    } else if bit < i {
      ShlPow2(bit, i - bit);
    }
  }

  /** The flattened byte of row y, byte k, for bit `bit`: the shifted bits of
    * the first n planes, combined. */
  function PartialPixel(planes: Planes, y: nat, k: nat, bit: nat, n: nat): nat
    requires bit < 8 && y < |planes| && n <= |planes[y]|
    requires forall i :: 0 <= i < n ==> k < |planes[y][i]|
  {
    if n == 0 then 0 else PartialPixel(planes, y, k, bit, n - 1) + ShiftedBit(planes[y][n - 1][k], bit, n - 1)
  }

  /** Bit `bit` of byte k of each of the first m planes, plane 0 first. */
  function PlaneBits(planes: Planes, y: nat, k: nat, bit: nat, m: nat): (bits: seq<nat>)
    requires y < |planes| && m <= |planes[y]|
    requires forall i :: 0 <= i < m ==> k < |planes[y][i]|
    ensures |bits| == m && IsBits(bits)
  {
    seq(m, i requires 0 <= i < m => Bit(planes[y][i][k], bit))
  }

  /** The flattened byte is the number whose bit i is bit `bit` of plane i,
    * for the planes below 8 (p2c writes a uint8 surface). */
  lemma {:induction false} PartialPixelBits(planes: Planes, y: nat, k: nat, bit: nat, n: nat)
    requires bit < 8 && y < |planes| && n <= |planes[y]|
    requires forall i :: 0 <= i < n ==> k < |planes[y][i]|
    ensures PartialPixel(planes, y, k, bit, n) == BitsValue(PlaneBits(planes, y, k, bit, Min(n, 8)))
    decreases n
  {
    if n > 0 {
      PartialPixelBits(planes, y, k, bit, n - 1);
      ShiftedBitValue(planes[y][n - 1][k], bit, n - 1);
      if n <= 8 {
        var b := Bit(planes[y][n - 1][k], bit);
        assert PlaneBits(planes, y, k, bit, n) == PlaneBits(planes, y, k, bit, n - 1) + [b];
        BitsValueSnoc(PlaneBits(planes, y, k, bit, n - 1), b);
      }
    }
  }

  /** The pixel p2c writes at x = 8k + (7-bit) of row y. */
  function ChunkyPixel(planes: Planes, h: nat, n: nat, w: nat, y: nat, k: nat, bit: nat): nat
    requires Shaped(planes, h, n, w) && y < h && k < w && bit < 8
  {
    PartialPixel(planes, y, k, bit, n)
  }

  /** Bit placement: bit i of pixel 8k+(7-bit) is bit `bit` of byte k of
    * plane i, for every plane below 8; the pixel is below 2^min(n, 8). */
  lemma {:induction false} ChunkyPixelBits(planes: Planes, h: nat, n: nat, w: nat, y: nat, k: nat, bit: nat)
    requires Shaped(planes, h, n, w) && y < h && k < w && bit < 8
    ensures ChunkyPixel(planes, h, n, w, y, k, bit) < Pow2(Min(n, 8))
    ensures forall i :: 0 <= i < Min(n, 8) ==> Bit(ChunkyPixel(planes, h, n, w, y, k, bit), i) == Bit(planes[y][i][k], bit)
  {
    var bits := PlaneBits(planes, y, k, bit, Min(n, 8));
    PartialPixelBits(planes, y, k, bit, n);
    BitsValueBound(bits);
    forall i | 0 <= i < Min(n, 8)
      ensures Bit(ChunkyPixel(planes, h, n, w, y, k, bit), i) == Bit(planes[y][i][k], bit)
    {
      BitOfBitsValue(bits, i);
    }
  }

  /** Every pixel p2c writes fits the 8-bit surface. */
  lemma {:induction false} ChunkyPixelByte(planes: Planes, h: nat, n: nat, w: nat, y: nat, k: nat, bit: nat)
    requires Shaped(planes, h, n, w) && y < h && k < w && bit < 8
    ensures ChunkyPixel(planes, h, n, w, y, k, bit) < 256
  {
    ChunkyPixelBits(planes, h, n, w, y, k, bit);
    if n < 8 {
      Pow2Add(n, 8 - n);
    }
    assert Pow2(8) == 256;
  }

  /** p2c (picio.py:53-77): for each bit from 7 down to 0, mask and shift
    * that bit of every plane into place, combine the planes, and store the
    * result in every eighth column of the surface, starting at column 7-bit.
    * The surface is 8*w columns wide and h rows high. */
  method P2C(planes: Planes, h: nat, n: nat, w: nat, surf: array2<byte>)
    requires Shaped(planes, h, n, w)
    requires surf.Length0 == 8 * w && surf.Length1 == h
    modifies surf
    ensures forall x, y :: 0 <= x < surf.Length0 && 0 <= y < surf.Length1 ==>
              surf[x, y] == ChunkyPixel(planes, h, n, w, y, x / 8, 7 - x % 8)
  {
    var b := 8;
    while b > 0
      invariant 0 <= b <= 8
      invariant forall x, y :: 0 <= x < surf.Length0 && 0 <= y < surf.Length1 && x % 8 < 8 - b ==>
                  surf[x, y] == ChunkyPixel(planes, h, n, w, y, x / 8, 7 - x % 8)
    {
      var bit := b - 1;
      var shifted := MaskPlanes(planes, h, n, w, bit);
      var flatten := FlattenPlanes(shifted, h, n, w);
      forall y, k | 0 <= y < h && 0 <= k < w
        ensures flatten[y][k] == ChunkyPixel(planes, h, n, w, y, k, bit) && flatten[y][k] < 256
      {
        PlaneSumShifted(planes, shifted, h, n, w, y, k, bit, n);
        ChunkyPixelByte(planes, h, n, w, y, k, bit);
      }
      WriteColumns(surf, flatten, h, w, 7 - bit);
      b := bit;
    }
  }

  /** The plane loop of p2c's first half: a copy of the planes in which
    * plane i holds only bit `bit` of each byte, moved to position i. */
  method MaskPlanes(planes: Planes, h: nat, n: nat, w: nat, bit: nat) returns (shifted: Planes)
    requires Shaped(planes, h, n, w) && bit < 8
    ensures Shaped(shifted, h, n, w)
    ensures forall y, i, k :: 0 <= y < h && 0 <= i < n && 0 <= k < w ==>
              shifted[y][i][k] == ShiftedBit(planes[y][i][k], bit, i)
  {
    shifted := planes;
    var i := 0;
    while i < n
      invariant 0 <= i <= n && Shaped(shifted, h, n, w)
      invariant forall y, j, k :: 0 <= y < h && 0 <= j < i && 0 <= k < w ==>
                  shifted[y][j][k] == ShiftedBit(planes[y][j][k], bit, j)
      invariant forall y, j :: 0 <= y < h && i <= j < n ==> shifted[y][j] == planes[y][j]
    {
      shifted := ShiftPlane(shifted, h, n, w, i, bit);
      i := i + 1;
    }
  }

  /** `planes[:, i, :] &= 1 << bit` followed by the shift of plane i. */
  function ShiftPlane(p: Planes, h: nat, n: nat, w: nat, i: nat, bit: nat): (r: Planes)
    requires Shaped(p, h, n, w) && i < n && bit < 8
    ensures Shaped(r, h, n, w)
    ensures forall y, k :: 0 <= y < h && 0 <= k < w ==> r[y][i][k] == ShiftedBit(p[y][i][k], bit, i)
    ensures forall y, j :: 0 <= y < h && 0 <= j < n && j != i ==> r[y][j] == p[y][j]
  {
    seq(h, y requires 0 <= y < h => ShiftRow(p[y], i, bit))
  }

  /** One row of ShiftPlane: plane i shifted, the other planes as they were. */
  function ShiftRow(row: seq<seq<byte>>, i: nat, bit: nat): (r: seq<seq<byte>>)
    requires i < |row| && bit < 8
    ensures |r| == |row| && |r[i]| == |row[i]|
    ensures forall k :: 0 <= k < |row[i]| ==> r[i][k] == ShiftedBit(row[i][k], bit, i)
    ensures forall j :: 0 <= j < |row| && j != i ==> r[j] == row[j]
  {
    row[i := ShiftBytes(row[i], bit, i)]
  }

  /** Every byte of one plane row masked to `bit` and moved to position i. */
  function ShiftBytes(bs: seq<byte>, bit: nat, i: nat): (r: seq<byte>)
    requires bit < 8
    ensures |r| == |bs|
    ensures forall k :: 0 <= k < |bs| ==> r[k] == ShiftedBit(bs[k], bit, i)
  {
    seq(|bs|, k requires 0 <= k < |bs| => ShiftedBit(bs[k], bit, i))
  }

  /** The sum of byte k of the first m planes of row y. */
  function PlaneSum(p: Planes, y: nat, k: nat, m: nat): nat
    requires y < |p| && m <= |p[y]|
    requires forall i :: 0 <= i < m ==> k < |p[y][i]|
  {
    if m == 0 then 0 else PlaneSum(p, y, k, m - 1) + p[y][m - 1][k]
  }

  /** Summing the shifted planes gives the flattened byte. */
  lemma {:induction false} PlaneSumShifted(planes: Planes, shifted: Planes, h: nat, n: nat, w: nat, y: nat, k: nat, bit: nat, m: nat)
    requires Shaped(planes, h, n, w) && Shaped(shifted, h, n, w) && y < h && k < w && bit < 8 && m <= n
    requires forall i :: 0 <= i < n ==> shifted[y][i][k] == ShiftedBit(planes[y][i][k], bit, i)
    ensures PlaneSum(shifted, y, k, m) == PartialPixel(planes, y, k, bit, m)
    decreases m
  {
    if m > 0 {
      PlaneSumShifted(planes, shifted, h, n, w, y, k, bit, m - 1);
    }
  }

  /** The plane loop of p2c's second half: `flatten |= planes[:, i, :]` for
    * every plane. The planes OR'd here hold distinct single bits, so the OR
    * is their sum. */
  method FlattenPlanes(shifted: Planes, h: nat, n: nat, w: nat) returns (flatten: seq<seq<nat>>)
    requires Shaped(shifted, h, n, w)
    ensures |flatten| == h && forall y :: 0 <= y < h ==> |flatten[y]| == w
    ensures forall y, k :: 0 <= y < h && 0 <= k < w ==> flatten[y][k] == PlaneSum(shifted, y, k, n)
  {
    flatten := seq(h, y => seq(w, k => 0));
    var i := 0;
    while i < n
      invariant 0 <= i <= n
      invariant |flatten| == h && forall y :: 0 <= y < h ==> |flatten[y]| == w
      invariant forall y, k :: 0 <= y < h && 0 <= k < w ==> flatten[y][k] == PlaneSum(shifted, y, k, i)
    {
      flatten := seq(h, y requires 0 <= y < h =>
        seq(w, k requires 0 <= k < w => flatten[y][k] + shifted[y][i][k]));
      i := i + 1;
    }
  }

  /** `surf_array[off::8, :] = flatten.transpose()`: column 8k+off gets
    * byte k of every row; the other columns keep their pixels. */
  method WriteColumns(surf: array2<byte>, flatten: seq<seq<nat>>, h: nat, w: nat, off: nat)
    requires off < 8 && surf.Length0 == 8 * w && surf.Length1 == h
    requires |flatten| == h && forall y :: 0 <= y < h ==> |flatten[y]| == w
    requires forall y, k :: 0 <= y < h && 0 <= k < w ==> flatten[y][k] < 256
    modifies surf
    ensures forall x, y :: 0 <= x < 8 * w && 0 <= y < h ==>
              surf[x, y] == if x % 8 == off then flatten[y][x / 8] else old(surf[x, y])
  {
    var k := 0;
    while k < w
      invariant 0 <= k <= w
      invariant forall x, y :: 0 <= x < 8 * w && 0 <= y < h ==>
                  surf[x, y] == if x % 8 == off && x / 8 < k then flatten[y][x / 8] else old(surf[x, y])
    {
      var y := 0;
      while y < h
        invariant 0 <= y <= h
        invariant forall x, y' :: 0 <= x < 8 * w && 0 <= y' < h ==>
                    surf[x, y'] == if x % 8 == off && (x / 8 < k || (x / 8 == k && y' < y)) then flatten[y'][x / 8] else old(surf[x, y'])
      {
        surf[8 * k + off, y] := flatten[y][k];
        y := y + 1;
      }
      k := k + 1;
    }
  }

  // ---------------------------------------------------------------------
  // Chunky to planar (picio.py:290-295)

  /** Why c2p raises. */
  datatype C2PError =
    | EmptySurface      // surf_array[0] on a surface of width 0
    | RowSizeMismatch   // reshape(h, 8, w2b(w)) of h*w bytes needs w == 8*w2b(w), i.e. w a multiple of 16

  /** A pygame surface array: surf[x][y], every column equally high. */
  predicate Rectangular(surf: seq<seq<byte>>)
  {
    forall x :: 0 <= x < |surf| ==> |surf[x]| == |surf[0]|
  }

  /** The bits of plane i for byte k of row y: bit s is bit i of pixel 8k+7-s,
    * so pixel 8k lands in the most significant bit, as np.packbits puts it. */
  function ColumnBits(surf: seq<seq<byte>>, y: nat, i: nat, k: nat): (bits: seq<nat>)
    requires Rectangular(surf) && 8 * k + 8 <= |surf| && y < |surf[0]|
    ensures |bits| == 8 && IsBits(bits)
  {
    seq(8, s requires 0 <= s < 8 => Bit(surf[8 * k + 7 - s][y], i))
  }

  /** Byte k of plane i of row y in c2p's result. */
  function PlaneByte(surf: seq<seq<byte>>, y: nat, i: nat, k: nat): byte
    requires Rectangular(surf) && 8 * k + 8 <= |surf| && y < |surf[0]|
  {
    BitsValueBound(ColumnBits(surf, y, i, k));
    assert Pow2(8) == 256;
    BitsValue(ColumnBits(surf, y, i, k))
  }

  /** c2p: transpose to rows, unpack every pixel into its 8 bits most
    * significant first, pack the bit stream into bytes, reshape to
    * (h, 8, w2b(w)) and reverse the plane axis so that plane i holds bit i. */
  function C2P(surf: seq<seq<byte>>): (r: Result<Planes, C2PError>)
    requires Rectangular(surf)
    ensures r.Err? <==> |surf| == 0 || (|surf[0]| > 0 && |surf| % 16 != 0)
    ensures r.Ok? ==> Shaped(r.value, |surf[0]|, 8, |surf| / 8)
  {
    if |surf| == 0 then Err(EmptySurface)
    else
      var w := |surf|;
      var h := |surf[0]|;
      if h > 0 && w % 16 != 0 then Err(RowSizeMismatch)
      else
        W2BBounds(w);
        Ok(seq(h, y requires 0 <= y < h =>
             seq(8, i requires 0 <= i < 8 =>
               seq(W2B(w), k requires 0 <= k < W2B(w) => PlaneByte(surf, y, i, k)))))
  }

  /** `planes[:, :p, :]`: the first p planes of every row. */
  function TakePlanes(planes: Planes, h: nat, n: nat, w: nat, p: nat): (r: Planes)
    requires Shaped(planes, h, n, w) && p <= n
    ensures Shaped(r, h, p, w)
  {
    seq(h, y requires 0 <= y < h => planes[y][..p])
  }

  /** Planar round trip: for a surface whose width is a multiple of 16 and
    * whose pixels are all below 2^p (p <= 8), p2c of the first p planes
    * of c2p restores every pixel. */
  lemma {:induction false} PlanarRoundTrip(surf: seq<seq<byte>>, p: nat, x: nat, y: nat)
    requires Rectangular(surf) && |surf| > 0 && |surf| % 16 == 0 && p <= 8
    requires forall x', y' :: 0 <= x' < |surf| && 0 <= y' < |surf[0]| ==> surf[x'][y'] < Pow2(p)
    requires x < |surf| && y < |surf[0]|
    ensures C2P(surf).Ok?
    ensures var planes := TakePlanes(C2P(surf).value, |surf[0]|, 8, |surf| / 8, p);
            ChunkyPixel(planes, |surf[0]|, p, |surf| / 8, y, x / 8, 7 - x % 8) == surf[x][y]
  {
    var h, w := |surf[0]|, |surf| / 8;
    var planes := TakePlanes(C2P(surf).value, h, 8, w, p);
    var k, bit := x / 8, 7 - x % 8;
    PartialPixelBits(planes, y, k, bit, p);
    assert PlaneBits(planes, y, k, bit, Min(p, 8)) == BitsOf(surf[x][y], p) by {
      forall i | 0 <= i < p
        ensures PlaneBits(planes, y, k, bit, p)[i] == BitsOf(surf[x][y], p)[i]
      {
        PlaneBitOfPixel(surf, p, x, y, i);
      }
    }
    BitsOfValue(surf[x][y], p);
    DivModUnique(surf[x][y], Pow2(p), 0, surf[x][y]);
  }

  /** Bit 7-(x%8) of byte x/8 of plane i of row y in the first p planes of
    * c2p is bit i of pixel (x, y). */
  lemma {:induction false} PlaneBitOfPixel(surf: seq<seq<byte>>, p: nat, x: nat, y: nat, i: nat)
    requires Rectangular(surf) && |surf| > 0 && |surf| % 16 == 0 && p <= 8
    requires x < |surf| && y < |surf[0]| && i < p
    ensures C2P(surf).Ok?
    ensures var planes := TakePlanes(C2P(surf).value, |surf[0]|, 8, |surf| / 8, p);
            Bit(planes[y][i][x / 8], 7 - x % 8) == Bit(surf[x][y], i)
  {
    var h, w := |surf[0]|, |surf| / 8;
    var k, bit := x / 8, 7 - x % 8;
    assert 8 * k + 7 - bit == x;
    assert C2P(surf).value[y][i][k] == PlaneByte(surf, y, i, k);
    BitOfBitsValue(ColumnBits(surf, y, i, k), bit);
  }
}
