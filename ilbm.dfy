// The IFF/ILBM container of picio.py: the file classifier, the chunk
// reader and writer, the effect of each chunk load_iff understands on the
// palette, display mode and colour ranges, and the decoding of the BODY
// chunk into a chunky picture (EA IFF 85, "ILBM" form).

module Ilbm {
  import opened Support
  import ByteRun
  import Planar

  // Four-character chunk and form tags, as ASCII bytes.
  const FormTag: seq<byte> := [70, 79, 82, 77]   // "FORM"
  const IlbmTag: seq<byte> := [73, 76, 66, 77]   // "ILBM"
  const AnimTag: seq<byte> := [65, 78, 73, 77]   // "ANIM"
  const CrngTag: seq<byte> := [67, 82, 78, 71]   // "CRNG"
  const CcrtTag: seq<byte> := [67, 67, 82, 84]   // "CCRT"
  const CamgTag: seq<byte> := [67, 65, 77, 71]   // "CAMG"
  const BmhdTag: seq<byte> := [66, 77, 72, 68]   // "BMHD"
  const CmapTag: seq<byte> := [67, 77, 65, 80]   // "CMAP"
  const BodyTag: seq<byte> := [66, 79, 68, 89]   // "BODY"

  // ---------------------------------------------------------------------
  // iff_type (picio.py:33-50)

  /** The classifier of a file: `None` stands for a file that cannot be
    * opened or read, which makes iff_type answer "NONE". A short read is
    * not an error: it just fails the comparison. */
  function IffType(file: Option<seq<byte>>): (r: string)
    ensures r == "NONE" <==> file.None?
    ensures r == "ILBM" <==> file.Some? && IsForm(file.value, IlbmTag)
    ensures r == "ANIM" <==> file.Some? && IsForm(file.value, AnimTag)
    ensures r == "" <==> file.Some? && !IsForm(file.value, IlbmTag) && !IsForm(file.value, AnimTag)
  {
    if file.None? then "NONE"
    else
      var f := file.value;
      if |f| >= 4 && f[..4] == FormTag then
        if |f| >= 12 && f[8..12] == IlbmTag then "ILBM"
        else if |f| >= 12 && f[8..12] == AnimTag then "ANIM"
        else ""
      else ""
  }

  /** Bytes 0..3 are "FORM" and bytes 8..11 are the form type. */
  predicate IsForm(f: seq<byte>, form: seq<byte>)
  {
    |f| >= 12 && f[..4] == FormTag && f[8..12] == form
  }

  // ---------------------------------------------------------------------
  // Big-endian fields, as struct.unpack reads them

  function U16(s: seq<byte>, i: nat): (r: nat)
    requires i + 2 <= |s|
    ensures r < 0x1_0000
  {
    s[i] as int * 0x100 + s[i + 1] as int
  }

  function S16(s: seq<byte>, i: nat): (r: int)
    requires i + 2 <= |s|
    ensures -0x8000 <= r < 0x8000
  {
    var u := U16(s, i);
    if u >= 0x8000 then u - 0x1_0000 else u
  }

  function U32(s: seq<byte>, i: nat): (r: nat)
    requires i + 4 <= |s|
    ensures r < 0x1_0000_0000
  {
    U16(s, i) * 0x1_0000 + U16(s, i + 2)
  }

  function S32(s: seq<byte>, i: nat): (r: int)
    requires i + 4 <= |s|
    ensures -0x8000_0000 <= r < 0x8000_0000
  {
    var u := U32(s, i);
    if u >= 0x8000_0000 then u - 0x1_0000_0000 else u
  }

  /** pack(">I", n). */
  function PackU32(n: nat): (r: seq<byte>)
    requires n < 0x1_0000_0000
    ensures |r| == 4
  {
    [n / 0x100_0000, (n / 0x1_0000) % 0x100, (n / 0x100) % 0x100, n % 0x100]
  }

  /** unpack(">I", pack(">I", n)) == n. */
  lemma {:induction false} PackU32RoundTrip(n: nat)
    requires n < 0x1_0000_0000
    ensures U32(PackU32(n), 0) == n
  {
    var p := PackU32(n);
    var hi := n / 0x1_0000;
    var lo := n % 0x1_0000;
    DivModUnique(n, 0x1_0000, hi, lo);
    DivDiv2(n, 0x1_0000, 0x100);
    assert p[0] == hi / 0x100 && p[1] == hi % 0x100;
    assert (n / 0x100) % 0x100 == lo / 0x100 by {
      DivModUnique(n, 0x100, hi * 0x100 + lo / 0x100, lo % 0x100);
      DivModUnique(hi * 0x100 + lo / 0x100, 0x100, hi, lo / 0x100);
    }
    assert n % 0x100 == lo % 0x100 by {
      DivModUnique(n, 0x100, hi * 0x100 + lo / 0x100, lo % 0x100);
    }
  }

  /** pack(">H", n). */
  function PackU16(n: nat): (r: seq<byte>)
    requires n < 0x1_0000
    ensures |r| == 2
  {
    [n / 0x100, n % 0x100]
  }

  /** pack(">h", n): the two's-complement bytes of a signed 16-bit number. */
  function PackS16(n: int): (r: seq<byte>)
    requires -0x8000 <= n < 0x8000
    ensures |r| == 2
  {
    PackU16(if n < 0 then n + 0x1_0000 else n)
  }

  /** pack(">i", n): the two's-complement bytes of a signed 32-bit number. */
  function PackS32(n: int): (r: seq<byte>)
    requires -0x8000_0000 <= n < 0x8000_0000
    ensures |r| == 4
  {
    PackU32(if n < 0 then n + 0x1_0000_0000 else n)
  }

  /** unpack(">H") reads back what pack(">H") wrote at offset i. */
  lemma {:induction false} U16At(s: seq<byte>, i: nat, n: nat)
    requires n < 0x1_0000 && i + 2 <= |s| && s[i..i + 2] == PackU16(n)
    ensures U16(s, i) == n
  {
    assert s[i] == s[i..i + 2][0] && s[i + 1] == s[i..i + 2][1];
  }

  /** unpack(">h") reads back what pack(">h") wrote at offset i. */
  lemma {:induction false} S16At(s: seq<byte>, i: nat, n: int)
    requires -0x8000 <= n < 0x8000 && i + 2 <= |s| && s[i..i + 2] == PackS16(n)
    ensures S16(s, i) == n
  {
    U16At(s, i, if n < 0 then n + 0x1_0000 else n);
  }

  /** unpack(">i") reads back what pack(">i") wrote at offset i. */
  lemma {:induction false} S32At(s: seq<byte>, i: nat, n: int)
    requires -0x8000_0000 <= n < 0x8000_0000 && i + 4 <= |s| && s[i..i + 4] == PackS32(n)
    ensures S32(s, i) == n
  {
    var u := if n < 0 then n + 0x1_0000_0000 else n;
    var t := s[i..i + 4];
    PackU32RoundTrip(u);
    assert t[0] == s[i] && t[1] == s[i + 1] && t[2] == s[i + 2] && t[3] == s[i + 3];
    assert U32(s, i) == U32(t, 0);
  }

  /** (n / (a * b)) == (n / a) / b, for the byte split of pack(">I"). */
  lemma {:induction false} DivDiv2(n: nat, a: nat, b: nat)
    requires a == 0x1_0000 && b == 0x100
    ensures n / 0x100_0000 == (n / a) / b
  {
    var q := (n / a) / b;
    var r := (n / a) % b;
    DivModUnique(n, 0x100_0000, q, r * a + n % a);
  }

  // ---------------------------------------------------------------------
  // Chunks: write_chunk (picio.py:201-203) and the reader load_iff uses

  datatype Chunk = Chunk(name: seq<byte>, data: seq<byte>)

  /** write_chunk: the name, the payload length as a big-endian 32-bit
    * number, then the payload, with no pad byte. */
  function WriteChunk(name: seq<byte>, data: seq<byte>): (r: seq<byte>)
    requires |name| == 4 && |data| < 0x1_0000_0000
    ensures |r| == 8 + |data|
  {
    name + PackU32(|data|) + data
  }

  /** One step of the standard chunk reader at offset pos: a 4-byte name and
    * a big-endian length; fewer than 8 header bytes end the stream (the
    * reader raises EOFError). The payload is clipped at the end of the
    * file, and the next chunk starts after the payload and, when its
    * length is odd, one pad byte. */
  function ReadChunk(f: seq<byte>, pos: nat): (r: Option<(Chunk, nat)>)
    ensures r.Some? ==> pos + 8 <= |f| && r.value.1 >= pos + 8
  {
    if pos + 8 > |f| then None
    else
      var size := U32(f, pos + 4);
      Some((Chunk(f[pos..pos + 4], f[pos + 8 .. Min(pos + 8 + size, |f|)]), pos + 8 + size + size % 2))
  }

  /** An even-length chunk written by write_chunk reads back as itself, and
    * the reader resumes right after it. */
  lemma {:induction false} WriteChunkRead(name: seq<byte>, data: seq<byte>, rest: seq<byte>)
    requires |name| == 4 && |data| < 0x1_0000_0000 && |data| % 2 == 0
    ensures ReadChunk(WriteChunk(name, data) + rest, 0) == Some((Chunk(name, data), 8 + |data|))
  {
    var f := WriteChunk(name, data) + rest;
    PackU32RoundTrip(|data|);
    assert f[4..8] == PackU32(|data|);
    assert U32(f, 4) == U32(PackU32(|data|), 0);
    assert f[..4] == name;
    assert f[8..8 + |data|] == data;
  }

  /** write_chunk adds no pad byte, so after an odd-length payload the reader
    * skips the first byte of whatever follows. */
  lemma {:induction false} WriteChunkOdd(name: seq<byte>, data: seq<byte>, rest: seq<byte>)
    requires |name| == 4 && |data| < 0x1_0000_0000 && |data| % 2 == 1
    ensures ReadChunk(WriteChunk(name, data) + rest, 0) == Some((Chunk(name, data), 9 + |data|))
  {
    var f := WriteChunk(name, data) + rest;
    PackU32RoundTrip(|data|);
    assert f[4..8] == PackU32(|data|);
    assert U32(f, 4) == U32(PackU32(|data|), 0);
    assert f[..4] == name;
    assert f[8..8 + |data|] == data;
  }

  // ---------------------------------------------------------------------
  // Chunk payloads (picio.py:123-158)

  /** A colour range as load_iff hands it to colorrange(rate, flags, low, high). */
  datatype CRange = CRange(rate: int, flags: int, low: byte, high: byte)

  /** The fields of BMHD that the rest of load_iff uses. */
  datatype Header = Header(w: nat, h: nat, nPlanes: byte, compression: byte)

  /** The exceptions that end load_iff early (EOFError is not one of them:
    * it ends the chunk loop normally). */
  datatype LoadError =
    | StructError        // a payload of the wrong size for its unpack format
    | ZeroDivision       // a CCRT timing of zero milliseconds
    | MissingHeader      // BODY before any BMHD: the header fields are unbound
    | EmptySurface       // a zero-width picture: surf_array[0] raises IndexError
    | ReplicateMissing   // the ByteRun1 body ends in a replicate control byte
    | BodySizeMismatch   // the decoded body does not reshape to (h, nPlanes, w2b(w))
    | PaletteIndex       // extra-halfbright with fewer than 64 palette entries

  /** CRNG: unpack(">HHHBB") yields pad, rate, flags, low, high. */
  function Crng(d: seq<byte>): (r: Result<CRange, LoadError>)
    ensures r.Ok? <==> |d| == 8
    ensures r.Ok? ==> r.value.low == d[6] && r.value.high == d[7] && 0 <= r.value.rate < 0x1_0000
  {
    if |d| != 8 then Err(StructError)
    else Ok(CRange(U16(d, 2), U16(d, 4), d[6], d[7]))
  }

  /** The rate load_iff derives from a CCRT timing of sec seconds and micro
    * microseconds: 273067 // (micro // 1000 + sec * 1000). */
  function CcrtRate(sec: int, micro: int): (r: Option<int>)
    ensures r.None? <==> FloorDiv(micro, 1000) + sec * 1000 == 0
  {
    var ms := FloorDiv(micro, 1000) + sec * 1000;
    if ms == 0 then None else Some(FloorDiv(273067, ms))
  }

  /** CCRT: unpack(">hBBiih") yields dir, low, high, sec, micro, pad; the
    * range is active (flag 1) and runs backwards (flag 2) when dir > 0. */
  function Ccrt(d: seq<byte>): (r: Result<CRange, LoadError>)
    ensures r.Ok? ==> |d| == 14 && r.value.low == d[2] && r.value.high == d[3]
    ensures r.Ok? ==> r.value.flags == (if S16(d, 0) > 0 then 3 else 1)
    ensures r == Err(ZeroDivision) <==> |d| == 14 && CcrtRate(S32(d, 4), S32(d, 8)).None?
    ensures r.Ok? ==> CcrtRate(S32(d, 4), S32(d, 8)) == Some(r.value.rate)
    ensures r == Err(StructError) <==> |d| != 14
  {
    if |d| != 14 then Err(StructError)
    else
      match CcrtRate(S32(d, 4), S32(d, 8))
      case None => Err(ZeroDivision)
      case Some(rate) => Ok(CRange(rate, if S16(d, 0) > 0 then 3 else 1, d[2], d[3]))
  }

  /** pack(">hBBiih", dir, low, high, sec, micro, pad): a CCRT payload. */
  function CcrtPayload(dir: int, low: byte, high: byte, sec: int, micro: int, pad: int): (r: seq<byte>)
    requires -0x8000 <= dir < 0x8000 && -0x8000 <= pad < 0x8000
    requires -0x8000_0000 <= sec < 0x8000_0000 && -0x8000_0000 <= micro < 0x8000_0000
    ensures |r| == 14
  {
    PackS16(dir) + [low, high] + PackS32(sec) + PackS32(micro) + PackS16(pad)
  }

  /** A CCRT payload decodes field by field: the rate is
    * 273067 // (micro // 1000 + sec * 1000) with Python's floor division,
    * flag 2 is set exactly when dir is positive, low and high pass
    * through, and a zero divisor is ZeroDivisionError. */
  lemma {:induction false} CcrtFields(dir: int, low: byte, high: byte, sec: int, micro: int, pad: int)
    requires -0x8000 <= dir < 0x8000 && -0x8000 <= pad < 0x8000
    requires -0x8000_0000 <= sec < 0x8000_0000 && -0x8000_0000 <= micro < 0x8000_0000
    ensures var ms := FloorDiv(micro, 1000) + sec * 1000;
            Ccrt(CcrtPayload(dir, low, high, sec, micro, pad)) ==
              if ms == 0 then Err(ZeroDivision)
              else Ok(CRange(FloorDiv(273067, ms), if dir > 0 then 3 else 1, low, high))
  {
    var d := CcrtPayload(dir, low, high, sec, micro, pad);
    assert d[0..2] == PackS16(dir);
    assert d[4..8] == PackS32(sec);
    assert d[8..12] == PackS32(micro);
    S16At(d, 0, dir);
    S32At(d, 4, sec);
    S32At(d, 8, micro);
    assert d[2] == low && d[3] == high;
  }

  const ModeLace: bv32 := 0x0004
  const ModeExtraHalfbright: bv32 := 0x0080
  const ModeHam: bv32 := 0x0800
  const ModeHires: bv32 := 0x8000
  const NtscMonitorId: bv32 := 0x0001_1000
  const PalMonitorId: bv32 := 0x0002_1000
  /** The mode bits PyDPainter keeps from a CAMG chunk (config.py:261-267). */
  const OcsModes: bv32 := ModeLace | ModeExtraHalfbright | ModeHam | ModeHires | NtscMonitorId | PalMonitorId

  /** CAMG: unpack(">I") masked with OCS_MODES. */
  function Camg(d: seq<byte>): (r: Result<bv32, LoadError>)
    ensures r.Ok? <==> |d| == 4
    ensures r.Ok? ==> r.value & !OcsModes == 0 && r.value == (U32(d, 0) as bv32) & OcsModes
  {
    if |d| != 4 then Err(StructError)
    else Ok((U32(d, 0) as bv32) & OcsModes)
  }

  /** BMHD: unpack(">HHhhBBBBHBBhh"); w, h, nPlanes and compression are kept. */
  function Bmhd(d: seq<byte>): (r: Result<Header, LoadError>)
    ensures r.Ok? <==> |d| == 20
    ensures r.Ok? ==> r.value == Header(U16(d, 0), U16(d, 2), d[8], d[10])
  {
    if |d| != 20 then Err(StructError)
    else Ok(Header(U16(d, 0), U16(d, 2), d[8], d[10]))
  }

  /** pack(">HHhhBBBBHBBhh", w, h, 0, 0, p, 0, c, 0, 0, 10, 11, w, h): the
    * BMHD payload save_iffinfo writes with compression 0 and save_iff with
    * compression 1. The page size is packed as signed 16-bit numbers, so
    * pack raises for sizes from 0x8000 on. */
  function BmhdPayload(w: nat, h: nat, p: byte, c: byte): (r: seq<byte>)
    requires w < 0x8000 && h < 0x8000
    ensures |r| == 20
  {
    PackU16(w) + PackU16(h) + PackS16(0) + PackS16(0) + [p, 0, c, 0] + PackU16(0) + [10, 11] + PackS16(w) + PackS16(h)
  }

  /** The BMHD payload the writers produce reads back as the header they
    * describe: the width, height, number of planes and compression. */
  lemma {:induction false} BmhdRoundTrip(w: nat, h: nat, p: byte, c: byte)
    requires w < 0x8000 && h < 0x8000
    ensures Bmhd(BmhdPayload(w, h, p, c)) == Ok(Header(w, h, p, c))
  {
    var d := BmhdPayload(w, h, p, c);
    assert d[0..2] == PackU16(w);
    assert d[2..4] == PackU16(h);
    U16At(d, 0, w);
    U16At(d, 2, h);
    assert d[8] == p && d[10] == c;
  }

  // ---------------------------------------------------------------------
  // Palette effects (picio.py:150-158, 167-169)

  /** `pal[0:1 << nPlanes]`. */
  function TruncatePalette(pal: seq<Color>, nPlanes: nat): (r: seq<Color>)
    ensures |r| == Min(|pal|, Pow2(nPlanes)) && r == pal[..|r|]
  {
    pal[..Min(|pal|, Pow2(nPlanes))]
  }

  const Black := Color(0, 0, 0)

  /** Entry i of a CMAP payload: bytes 3i, 3i+1, 3i+2. */
  function CmapEntry(d: seq<byte>, i: nat): Color
    requires i < |d| / 3
  {
    Color(d[3 * i], d[3 * i + 1], d[3 * i + 2])
  }

  /** The palette after a CMAP chunk: padded with black to |d|/3 entries,
    * whose first |d|/3 entries then come from the payload. */
  function CmapPalette(pal: seq<Color>, d: seq<byte>): seq<Color>
  {
    var ncol := |d| / 3;
    seq(Max(|pal|, ncol), i requires 0 <= i < Max(|pal|, ncol) =>
      if i < ncol then CmapEntry(d, i) else pal[i])
  }

  /** CMAP grows the palette only up to the payload's colour count,
    * overwrites exactly the entries it carries and keeps the rest. */
  lemma {:induction false} CmapEffect(pal: seq<Color>, d: seq<byte>)
    ensures |CmapPalette(pal, d)| == Max(|pal|, |d| / 3)
    ensures forall i :: 0 <= i < |d| / 3 ==> CmapPalette(pal, d)[i] == Color(d[3 * i], d[3 * i + 1], d[3 * i + 2])
    ensures forall i :: |d| / 3 <= i < |pal| ==> CmapPalette(pal, d)[i] == pal[i]
  {
  }

  /** One channel-halved copy of a colour. */
  function Half(c: Color): (r: Color)
    ensures r.r == c.r / 2 && r.g == c.g / 2 && r.b == c.b / 2
  {
    Color(c.r / 2, c.g / 2, c.b / 2)
  }

  /** Entry j of the palette after the first i turns of the
    * extra-halfbright loop. */
  function HalfBrightEntry(p: seq<Color>, i: nat, j: nat): Color
    requires j < |p|
  {
    if 32 <= j < 32 + i then Half(p[j - 32]) else p[j]
  }

  /** The extra-halfbright loop `for i in range(32): pal[i + 32] = half of
    * pal[i]`: entries 32..63 that exist are overwritten; when the palette
    * has fewer than 64 entries the first missing one raises IndexError. */
  function HalfBright(pal: seq<Color>): (r: (seq<Color>, Option<LoadError>))
  {
    (seq(|pal|, j requires 0 <= j < |pal| => HalfBrightEntry(pal, 32, j)),
     if |pal| < 64 then Some(PaletteIndex) else None)
  }

  /** Pads the range list with inactive ranges (0, 1, 0, 0) to six entries. */
  function PadRanges(rs: seq<CRange>): (r: seq<CRange>)
    decreases 6 - |rs|
  {
    if |rs| < 6 then PadRanges(rs + [CRange(0, 1, 0, 0)]) else rs
  }

  /** At least six ranges, the loaded ones first and only defaults after. */
  lemma {:induction false} PadRangesShape(rs: seq<CRange>)
    ensures |PadRanges(rs)| == Max(|rs|, 6)
    ensures PadRanges(rs)[..|rs|] == rs
    ensures forall i :: |rs| <= i < |PadRanges(rs)| ==> PadRanges(rs)[i] == CRange(0, 1, 0, 0)
    decreases 6 - |rs|
  {
    if |rs| < 6 {
      var rs' := rs + [CRange(0, 1, 0, 0)];
      PadRangesShape(rs');
      assert PadRanges(rs)[..|rs'|][..|rs|] == rs;
    }
  }

  // ---------------------------------------------------------------------
  // decode_ilbm_body (picio.py:104-115)

  lemma {:induction false} MulGe(k: nat, c: nat)
    requires k >= 1
    ensures k * c >= c
  {
    if k > 1 {
      MulGe(k - 1, c);
      assert k * c == (k - 1) * c + c;
    }
  }

  /** Piece j of s cut into m pieces of sz bytes lies inside s. */
  lemma {:induction false} PieceEnd(j: nat, m: nat, sz: nat)
    requires j < m
    ensures 0 <= j * sz && j * sz + sz <= m * sz
  {
    if j > 0 {
      MulGe(j, sz);
    }
    MulGe(m - j, sz);
    assert m * sz == j * sz + (m - j) * sz;
  }

  /** Piece j of s cut into pieces of sz bytes. */
  function Piece(s: seq<byte>, m: nat, sz: nat, j: nat): (r: seq<byte>)
    requires |s| == m * sz && j < m
    ensures |r| == sz
  {
    PieceEnd(j, m, sz);
    var lo := j * sz;
    s[lo .. lo + sz]
  }

  /** s cut into m consecutive pieces of sz bytes. */
  function Split(s: seq<byte>, m: nat, sz: nat): (r: seq<seq<byte>>)
    requires |s| == m * sz
    ensures |r| == m && forall j :: 0 <= j < m ==> |r[j]| == sz
  {
    seq(m, j requires 0 <= j < m => Piece(s, m, sz, j))
  }

  /** Byte t of piece j is byte j*sz + t of s. */
  lemma {:induction false} PieceIndex(s: seq<byte>, m: nat, sz: nat, j: nat, t: nat)
    requires |s| == m * sz && j < m && t < sz
    ensures j * sz + t < |s| && Piece(s, m, sz, j)[t] == s[j * sz + t]
  {
    PieceEnd(j, m, sz);
  }

  /** numpy's `reshape(h, n, wb)` of a flat byte buffer. */
  function Reshape(raw: seq<byte>, h: nat, n: nat, wb: nat): (p: Planar.Planes)
    requires |raw| == h * n * wb
    ensures Planar.Shaped(p, h, n, wb)
  {
    MulAssoc(h, n, wb);
    var rows := Split(raw, h, n * wb);
    seq(h, y requires 0 <= y < h => Split(rows[y], n, wb))
  }

  /** Element (y, i, k) of the reshaped buffer is byte y*(n*wb) + i*wb + k
    * of it: the rows of one scan line are stored plane after plane. */
  lemma {:induction false} ReshapeIndex(raw: seq<byte>, h: nat, n: nat, wb: nat, y: nat, i: nat, k: nat)
    requires |raw| == h * n * wb && y < h && i < n && k < wb
    ensures y * (n * wb) + i * wb + k < |raw|
    ensures Reshape(raw, h, n, wb)[y][i][k] == raw[y * (n * wb) + i * wb + k]
  {
    MulAssoc(h, n, wb);
    var row := ReshapeRow(raw, h, n, wb, y);
    PieceEnd(i, n, wb);
    PieceIndex(row, n, wb, i, k);
    PieceIndex(raw, h, n * wb, y, i * wb + k);
  }

  /** Row y of the reshaped buffer is piece y of the buffer, cut by plane. */
  lemma {:induction false} ReshapeRow(raw: seq<byte>, h: nat, n: nat, wb: nat, y: nat) returns (row: seq<byte>)
    requires |raw| == h * (n * wb) && |raw| == h * n * wb && y < h
    ensures row == Piece(raw, h, n * wb, y)
    ensures Reshape(raw, h, n, wb)[y] == Split(row, n, wb)
  {
    row := Piece(raw, h, n * wb, y);
  }

  lemma {:induction false} MulAssoc(a: nat, b: nat, c: nat)
    ensures a * b * c == a * (b * c)
  {
  }

  /** The planes decode_ilbm_body hands to p2c for a picture of h rows of wb
    * bytes per plane: the ByteRun1-decoded body when `compression` is
    * non-zero, the raw body otherwise; the buffer must hold exactly
    * h * nPlanes * wb bytes, since byterun_decode may grow it. */
  function BodyPlanes(body: seq<byte>, compression: byte, n: nat, h: nat, wb: nat): (r: Result<Planar.Planes, LoadError>)
    ensures r.Ok? ==> Planar.Shaped(r.value, h, n, wb)
  {
    var size := h * n * wb;
    var raw :=
      if compression != 0 then
        match ByteRun.Decode(body, 0, Zeros(size), 0)
        case Ok(o) => Ok(o)
        case Err(_) => Err(ReplicateMissing)
      else Ok(body);
    if raw.Err? then Err(raw.error)
    else if |raw.value| != size then Err(BodySizeMismatch)
    else Ok(Reshape(raw.value, h, n, wb))
  }

  /** A fresh zeroed buffer, bytearray(size). */
  function Zeros(size: nat): (r: seq<byte>)
    ensures |r| == size && forall i :: 0 <= i < size ==> r[i] == 0
  {
    seq(size, i requires 0 <= i < size => 0)
  }

  /** An uncompressed body is used as it is whenever it has the right size. */
  lemma {:induction false} BodyPlanesRaw(body: seq<byte>, n: nat, h: nat, wb: nat)
    ensures BodyPlanes(body, 0, n, h, wb).Ok? <==> |body| == h * n * wb
    ensures |body| == h * n * wb ==> BodyPlanes(body, 0, n, h, wb) == Ok(Reshape(body, h, n, wb))
  {
  }

  /** A body written by byterun_encode from the interleaved planes decodes
    * back to them. */
  lemma {:induction false} BodyPlanesEncoded(raw: seq<byte>, compression: byte, n: nat, h: nat, wb: nat, trailing: seq<byte>)
    requires compression != 0 && |raw| == h * n * wb && |raw| > 0
    ensures BodyPlanes(ByteRun.Encoding(raw) + trailing, compression, n, h, wb) == Ok(Reshape(raw, h, n, wb))
  {
    ByteRun.RoundTrip(raw, Zeros(h * n * wb), trailing);
  }

  /** A chunky picture as pygame's surfarray sees it: pic[x][y]. */
  type Picture = seq<seq<byte>>

  /** What p2c writes from planes of h rows and wb bytes per plane row. */
  function ChunkyPicture(planes: Planar.Planes, h: nat, n: nat, wb: nat): (pic: Picture)
    requires Planar.Shaped(planes, h, n, wb)
    ensures |pic| == 8 * wb && forall x :: 0 <= x < 8 * wb ==> |pic[x]| == h
  {
    seq(8 * wb, x requires 0 <= x < 8 * wb => PictureColumn(planes, h, n, wb, x))
  }

  function PictureColumn(planes: Planar.Planes, h: nat, n: nat, wb: nat, x: nat): (col: seq<byte>)
    requires Planar.Shaped(planes, h, n, wb) && x < 8 * wb
    ensures |col| == h && forall y :: 0 <= y < h ==> col[y] == Planar.ChunkyPixel(planes, h, n, wb, y, x / 8, 7 - x % 8)
  {
    seq(h, y requires 0 <= y < h => PictureByte(planes, h, n, wb, x, y))
  }

  function PictureByte(planes: Planar.Planes, h: nat, n: nat, wb: nat, x: nat, y: nat): (b: byte)
    requires Planar.Shaped(planes, h, n, wb) && x < 8 * wb && y < h
    ensures b == Planar.ChunkyPixel(planes, h, n, wb, y, x / 8, 7 - x % 8)
  {
    Planar.ChunkyPixelByte(planes, h, n, wb, y, x / 8, 7 - x % 8);
    Planar.ChunkyPixel(planes, h, n, wb, y, x / 8, 7 - x % 8) as byte
  }

  /** The array holds the picture. */
  predicate Holds(a: array2<byte>, pic: Picture)
    reads a
  {
    a.Length0 == |pic| &&
    (forall x :: 0 <= x < |pic| ==> |pic[x]| == a.Length1) &&
    forall x, y :: 0 <= x < a.Length0 && 0 <= y < a.Length1 ==> a[x, y] == pic[x][y]
  }

  /** decode_ilbm_body: the surface's own width and height give the plane
    * geometry; a zero-width surface fails on surf_array[0]. The surface is
    * one built by load_iff, w2b(w)*8 columns wide. */
  method DecodeIlbmBody(body: seq<byte>, compression: byte, nPlanes: nat, surf: array2<byte>) returns (err: Option<LoadError>)
    requires surf.Length0 % 16 == 0
    modifies surf
    ensures surf.Length0 == 0 ==> err == Some(EmptySurface)
    ensures surf.Length0 > 0 ==>
              var r := BodyPlanes(body, compression, nPlanes, surf.Length1, Planar.W2B(surf.Length0));
              (r.Err? ==> err == Some(r.error)) &&
              (r.Ok? ==> err.None? && Holds(surf, ChunkyPicture(r.value, surf.Length1, nPlanes, Planar.W2B(surf.Length0))))
  {
    var w := surf.Length0;
    if w == 0 {
      return Some(EmptySurface);
    }
    var h := surf.Length1;
    Planar.W2BBounds(w);
    var wb: nat := Planar.W2B(w);
    assert 8 * wb == w;
    var size := h * nPlanes * wb;
    var raw: seq<byte>;
    if compression != 0 {
      var d := ByteRun.ByteRunDecode(body, Zeros(size));
      if d.Err? {
        return Some(ReplicateMissing);
      }
      raw := d.value;
    } else {
      raw := body;
    }
    if |raw| != size {
      return Some(BodySizeMismatch);
    }
    var planes := Reshape(raw, h, nPlanes, wb);
    assert BodyPlanes(body, compression, nPlanes, h, wb) == Ok(planes);
    Planar.P2C(planes, h, nPlanes, wb, surf);
    err := None;
  }

  // ---------------------------------------------------------------------
  // The chunk loop of load_iff (picio.py:118-183)

  /** What load_iff has accumulated so far: config.pal, config.display_mode,
    * its local range list, the last BMHD fields and the last BODY picture. */
  datatype LoadState = LoadState(pal: seq<Color>, mode: bv32, ranges: seq<CRange>, hdr: Option<Header>, pic: Option<Picture>)

  /** The state after some chunks, and the exception that stopped the loop
    * if one did; the state keeps whatever was changed before it. */
  datatype Outcome = Outcome(st: LoadState, err: Option<LoadError>)

  /** The picture a BODY chunk becomes: a surface w2b(w)*8 pixels wide and
    * h high, filled by decode_ilbm_body. */
  function BodyPicture(d: seq<byte>, hdr: Header): (r: Result<Picture, LoadError>)
  {
    Planar.W2BBounds(hdr.w);
    var wb: nat := Planar.W2B(hdr.w);
    if wb == 0 then Err(EmptySurface)
    else
      match BodyPlanes(d, hdr.compression, hdr.nPlanes, hdr.h, wb)
      case Err(e) => Err(e)
      case Ok(p) => Ok(ChunkyPicture(p, hdr.h, hdr.nPlanes, wb))
  }

  /** Fail with e, keeping the state. */
  function Fail(st: LoadState, e: LoadError): Outcome
  {
    Outcome(st, Some(e))
  }

  /** The chunk names load_iff dispatches on. */
  datatype Kind = CrngChunk | CcrtChunk | CamgChunk | BmhdChunk | CmapChunk | BodyChunk | OtherChunk

  function KindOf(name: seq<byte>): Kind
  {
    if name == CrngTag then CrngChunk
    else if name == CcrtTag then CcrtChunk
    else if name == CamgTag then CamgChunk
    else if name == BmhdTag then BmhdChunk
    else if name == CmapTag then CmapChunk
    else if name == BodyTag then BodyChunk
    else OtherChunk
  }

  /** The effect of one chunk; chunks with other names are skipped. */
  function Step(st: LoadState, c: Chunk): Outcome
  {
    match KindOf(c.name)
    case CrngChunk => AddRange(st, Crng(c.data))
    case CcrtChunk => AddRange(st, Ccrt(c.data))
    case CamgChunk => SetMode(st, Camg(c.data))
    case BmhdChunk => SetHeader(st, Bmhd(c.data))
    case CmapChunk => Outcome(st.(pal := CmapPalette(st.pal, c.data)), None)
    case BodyChunk => BodyStep(st, c.data)
    case OtherChunk => Outcome(st, None)
  }

  /** CRNG and CCRT append the range they carry. */
  function AddRange(st: LoadState, r: Result<CRange, LoadError>): Outcome
  {
    match r
    case Err(e) => Fail(st, e)
    case Ok(cr) => Outcome(st.(ranges := st.ranges + [cr]), None)
  }

  /** CAMG sets the display mode. */
  function SetMode(st: LoadState, r: Result<bv32, LoadError>): Outcome
  {
    match r
    case Err(e) => Fail(st, e)
    case Ok(m) => Outcome(st.(mode := m), None)
  }

  /** BMHD records the header and truncates the palette to 2^nPlanes entries. */
  function SetHeader(st: LoadState, r: Result<Header, LoadError>): Outcome
  {
    match r
    case Err(e) => Fail(st, e)
    case Ok(h) => Outcome(st.(hdr := Some(h), pal := TruncatePalette(st.pal, h.nPlanes)), None)
  }

  /** BODY decodes the picture with the last header, then applies
    * extra-halfbright to the palette when the display mode has that bit. */
  function BodyStep(st: LoadState, d: seq<byte>): Outcome
  {
    if st.hdr.None? then Fail(st, MissingHeader)
    else
      match BodyPicture(d, st.hdr.value)
      case Err(e) => Fail(st, e)
      case Ok(pic) =>
        if st.mode & ModeExtraHalfbright != 0 then
          Outcome(st.(pic := Some(pic), pal := HalfBright(st.pal).0), HalfBright(st.pal).1)
        else Outcome(st.(pic := Some(pic)), None)
  }

  /** The chunk loop from offset pos to the end of the file or the first
    * exception. */
  function RunFile(st: LoadState, f: seq<byte>, pos: nat): Outcome
    decreases |f| - pos
  {
    match ReadChunk(f, pos)
    case None => Outcome(st, None)
    case Some((c, next)) =>
      var o := Step(st, c);
      if o.err.Some? then o else RunFile(o.st, f, next)
  }

  /** load_iff's loop, starting after the 12-byte FORM header with display
    * mode 0, no ranges and no header. */
  function LoadOutcome(pal: seq<Color>, f: seq<byte>): Outcome
  {
    RunFile(LoadState(pal, 0, [], None, None), f, 12)
  }

  /** A file too short to hold a chunk after its FORM header changes
    * nothing but the display mode. */
  lemma {:induction false} LoadShortFile(pal: seq<Color>, f: seq<byte>)
    requires |f| < 20
    ensures LoadOutcome(pal, f) == Outcome(LoadState(pal, 0, [], None, None), None)
  {
  }

  /** pack(">HHHBB", 0, rate, flags, low, high), as save_iffinfo writes a range. */
  function CrngPayload(rate: nat, flags: nat, low: byte, high: byte): (r: seq<byte>)
    requires rate < 0x1_0000 && flags < 0x1_0000
    ensures |r| == 8
  {
    [0, 0, rate / 0x100, rate % 0x100, flags / 0x100, flags % 0x100, low, high]
  }

  /** A CRNG chunk written with write_chunk is read back as the same range,
    * appended to the range list, and the loop carries on after it. */
  lemma {:induction false} CrngRoundTrip(st: LoadState, rate: nat, flags: nat, low: byte, high: byte, pre: seq<byte>, rest: seq<byte>)
    requires rate < 0x1_0000 && flags < 0x1_0000
    ensures var f := pre + WriteChunk(CrngTag, CrngPayload(rate, flags, low, high)) + rest;
            RunFile(st, f, |pre|) == RunFile(st.(ranges := st.ranges + [CRange(rate, flags, low, high)]), f, |pre| + 16)
  {
    var d := CrngPayload(rate, flags, low, high);
    var f := pre + WriteChunk(CrngTag, d) + rest;
    assert f == pre + (WriteChunk(CrngTag, d) + rest);
    ReadAt(pre, WriteChunk(CrngTag, d) + rest);
    WriteChunkRead(CrngTag, d, rest);
    assert ReadChunk(f, |pre|) == Some((Chunk(CrngTag, d), |pre| + 16));
    CrngStep(st, rate, flags, low, high);
  }

  lemma {:induction false} CrngStep(st: LoadState, rate: nat, flags: nat, low: byte, high: byte)
    requires rate < 0x1_0000 && flags < 0x1_0000
    ensures Step(st, Chunk(CrngTag, CrngPayload(rate, flags, low, high))) == Outcome(st.(ranges := st.ranges + [CRange(rate, flags, low, high)]), None)
  {
    var d := CrngPayload(rate, flags, low, high);
    assert KindOf(CrngTag) == CrngChunk;
    assert U16(d, 2) == rate && U16(d, 4) == flags;
  }

  /** Reading at offset |pre| only looks at what follows pre. */
  lemma {:induction false} ReadAt(pre: seq<byte>, g: seq<byte>)
    ensures ReadChunk(pre + g, |pre|) == match ReadChunk(g, 0)
                                         case None => None
                                         case Some((c, next)) => Some((c, |pre| + next))
  {
    var f := pre + g;
    if |pre| + 8 <= |f| {
      assert f[|pre|..|pre| + 4] == g[..4];
      assert f[|pre| + 4..|pre| + 8] == g[4..8];
      assert U32(f, |pre| + 4) == U32(g, 4);
      var size := U32(g, 4);
      assert f[|pre| + 8 .. Min(|pre| + 8 + size, |f|)] == g[8 .. Min(8 + size, |g|)];
    }
  }

  /** A CAMG chunk stores the mode bits PyDPainter knows and drops the rest. */
  lemma {:induction false} CamgRoundTrip(mode: nat)
    requires mode < 0x1_0000_0000
    ensures Camg(PackU32(mode)) == Ok((mode as bv32) & OcsModes)
  {
    PackU32RoundTrip(mode);
  }

  /** The extra-halfbright loop writes half of entry j-32 into every existing
    * entry j in 32..63, and fails exactly when the palette has fewer than 64
    * entries. */
  lemma {:induction false} HalfBrightEffect(pal: seq<Color>)
    ensures |HalfBright(pal).0| == |pal|
    ensures forall j :: 32 <= j < Min(64, |pal|) ==> HalfBright(pal).0[j] == Half(pal[j - 32])
    ensures forall j :: 0 <= j < |pal| && !(32 <= j < 64) ==> HalfBright(pal).0[j] == pal[j]
    ensures HalfBright(pal).1.Some? <==> |pal| < 64
  {
  }

  /** The part of config that load_iff changes. */
  class Config {
    var pal: seq<Color>
    var displayMode: bv32
    var cranges: seq<CRange>

    constructor (pal0: seq<Color>)
      ensures pal == pal0 && displayMode == 0 && cranges == []
    {
      pal := pal0;
      displayMode := 0;
      cranges := [];
    }

    /** load_iff on the bytes of a file. On an exception the palette and
      * display mode keep what the chunks before it did, and config.cranges
      * is left alone; otherwise config.cranges receives the loaded ranges
      * padded to six, and the last BODY picture is returned. */
    method LoadIff(file: seq<byte>) returns (pic: Option<array2<byte>>, err: Option<LoadError>)
      modifies this
      ensures var o := LoadOutcome(old(pal), file);
              pal == o.st.pal && displayMode == o.st.mode && err == o.err &&
              (err.Some? ==> cranges == old(cranges) && pic.None?) &&
              (err.None? ==> cranges == PadRanges(o.st.ranges) && (pic.Some? <==> o.st.pic.Some?)) &&
              (err.None? && pic.Some? ==> fresh(pic.value) && Holds(pic.value, o.st.pic.value))
    {
      displayMode := 0;
      var ranges: seq<CRange> := [];
      var hdr: Option<Header> := None;
      var cur: Option<array2<byte>> := None;
      ghost var ps: Option<Picture> := None;
      var pos: nat := 12;
      while true
        invariant RunFile(LoadState(pal, displayMode, ranges, hdr, ps), file, pos) == LoadOutcome(old(pal), file)
        invariant cur.Some? <==> ps.Some?
        invariant cur.Some? ==> fresh(cur.value) && Holds(cur.value, ps.value)
        invariant cranges == old(cranges)
        decreases |file| - pos
      {
        var rc := ReadChunk(file, pos);
        if rc.None? {
          break;
        }
        var c := rc.value.0;
        var e;
        ranges, hdr, cur, ps, e := ApplyChunk(c, ranges, hdr, cur, ps);
        if e.Some? {
          return None, e;
        }
        pos := rc.value.1;
      }
      ghost var loaded := ranges;
      while |ranges| < 6
        invariant PadRanges(ranges) == PadRanges(loaded)
        decreases 6 - |ranges|
      {
        ranges := ranges + [CRange(0, 1, 0, 0)];
      }
      cranges := ranges;
      return cur, None;
    }

    /** The dispatch on one chunk's name. */
    method ApplyChunk(c: Chunk, ranges: seq<CRange>, hdr: Option<Header>, pic: Option<array2<byte>>, ghost ps: Option<Picture>)
      returns (ranges': seq<CRange>, hdr': Option<Header>, pic': Option<array2<byte>>, ghost ps': Option<Picture>, err: Option<LoadError>)
      requires pic.Some? <==> ps.Some?
      requires pic.Some? ==> Holds(pic.value, ps.value)
      modifies this
      ensures var o := Step(LoadState(old(pal), old(displayMode), ranges, hdr, ps), c);
              pal == o.st.pal && displayMode == o.st.mode && err == o.err &&
              (err.None? ==> ranges' == o.st.ranges && hdr' == o.st.hdr && ps' == o.st.pic)
      ensures cranges == old(cranges)
      ensures pic'.Some? <==> ps'.Some?
      ensures pic'.Some? ==> Holds(pic'.value, ps'.value) && (pic' == pic || fresh(pic'.value))
    {
      ranges', hdr', pic', ps', err := ranges, hdr, pic, ps, None;
      if KindOf(c.name) == BodyChunk {
        pic', ps', err := ApplyBody(c.data, hdr, pic, ps);
      } else {
        ranges', hdr', err := ApplyOther(c, ranges, hdr, ps);
      }
    }

    /** The branches for every chunk but BODY. */
    method ApplyOther(c: Chunk, ranges: seq<CRange>, hdr: Option<Header>, ghost ps: Option<Picture>)
      returns (ranges': seq<CRange>, hdr': Option<Header>, err: Option<LoadError>)
      requires KindOf(c.name) != BodyChunk
      modifies this
      ensures var o := Step(LoadState(old(pal), old(displayMode), ranges, hdr, ps), c);
              pal == o.st.pal && displayMode == o.st.mode && err == o.err &&
              (err.None? ==> ranges' == o.st.ranges && hdr' == o.st.hdr && ps == o.st.pic)
      ensures cranges == old(cranges)
    {
      ranges', hdr', err := ranges, hdr, None;
      match KindOf(c.name)
      case CrngChunk =>
        var r := Crng(c.data);
        if r.Err? {
          err := Some(r.error);
        } else {
          ranges' := ranges + [r.value];
        }
      case CcrtChunk =>
        var r := Ccrt(c.data);
        if r.Err? {
          err := Some(r.error);
        } else {
          ranges' := ranges + [r.value];
        }
      case CamgChunk =>
        var r := Camg(c.data);
        if r.Err? {
          err := Some(r.error);
        } else {
          displayMode := r.value;
        }
      case BmhdChunk =>
        var r := Bmhd(c.data);
        if r.Err? {
          err := Some(r.error);
        } else {
          hdr' := Some(r.value);
          pal := TruncatePalette(pal, r.value.nPlanes);
        }
      case CmapChunk =>
        ApplyCmap(c.data);
      case OtherChunk =>
    }

    /** The CMAP branch: pad with black, then overwrite entry by entry. */
    method ApplyCmap(d: seq<byte>)
      modifies this
      ensures pal == CmapPalette(old(pal), d)
      ensures displayMode == old(displayMode) && cranges == old(cranges)
    {
      var ncol := |d| / 3;
      while |pal| < ncol
        invariant |old(pal)| <= |pal| <= Max(|old(pal)|, ncol)
        invariant forall j :: 0 <= j < |old(pal)| ==> pal[j] == old(pal)[j]
        invariant forall j :: |old(pal)| <= j < |pal| ==> pal[j] == Black
        invariant displayMode == old(displayMode) && cranges == old(cranges)
        decreases ncol - |pal|
      {
        pal := pal + [Black];
      }
      ghost var padded := pal;
      for i := 0 to ncol
        invariant |pal| == |padded| == Max(|old(pal)|, ncol)
        invariant forall j :: 0 <= j < |pal| ==> pal[j] == if j < i then CmapEntry(d, j) else padded[j]
        invariant displayMode == old(displayMode) && cranges == old(cranges)
      {
        pal := pal[i := CmapEntry(d, i)];
      }
      assert pal == CmapPalette(old(pal), d);
    }

    /** The BODY branch: decode into a fresh surface, then apply
      * extra-halfbright when the display mode asks for it. */
    method ApplyBody(d: seq<byte>, hdr: Option<Header>, pic: Option<array2<byte>>, ghost ps: Option<Picture>)
      returns (pic': Option<array2<byte>>, ghost ps': Option<Picture>, err: Option<LoadError>)
      requires pic.Some? <==> ps.Some?
      requires pic.Some? ==> Holds(pic.value, ps.value)
      modifies this
      ensures var o := BodyStep(LoadState(old(pal), old(displayMode), [], hdr, ps), d);
              pal == o.st.pal && displayMode == old(displayMode) && err == o.err &&
              (err.None? ==> ps' == o.st.pic)
      ensures cranges == old(cranges)
      ensures pic'.Some? <==> ps'.Some?
      ensures pic'.Some? ==> Holds(pic'.value, ps'.value) && (pic' == pic || fresh(pic'.value))
    {
      pic', ps' := pic, ps;
      if hdr.None? {
        return pic, ps, Some(MissingHeader);
      }
      var h := hdr.value;
      Planar.W2BBounds(h.w);
      var wb: nat := Planar.W2B(h.w);
      var surf := new byte[wb * 8, h.h];
      Planar.W2BBounds(wb * 8);
      assert Planar.W2B(wb * 8) == wb;
      err := DecodeIlbmBody(d, h.compression, h.nPlanes, surf);
      if err.Some? {
        return pic, ps, err;
      }
      pic', ps' := Some(surf), Some(BodyPicture(d, h).value);
      if displayMode & ModeExtraHalfbright != 0 {
        err := ApplyHalfBright();
      }
    }

    /** `for i in range(32): config.pal[i+32] = halved config.pal[i]`. */
    method ApplyHalfBright() returns (err: Option<LoadError>)
      modifies this
      ensures (pal, err) == HalfBright(old(pal))
      ensures displayMode == old(displayMode) && cranges == old(cranges)
    {
      ghost var p0 := pal;
      HalfBrightEffect(p0);
      var i := 0;
      while i < 32
        invariant 0 <= i <= 32 && |pal| == |p0|
        invariant i == 0 || i + 32 <= |pal|
        invariant forall j :: 0 <= j < |pal| ==> pal[j] == HalfBrightEntry(p0, i, j)
        invariant displayMode == old(displayMode) && cranges == old(cranges)
      {
        if i + 32 >= |pal| {
          assert pal == HalfBright(p0).0;
          return Some(PaletteIndex);
        }
        pal := pal[i + 32 := Half(pal[i])];
        i := i + 1;
      }
      assert pal == HalfBright(p0).0;
      err := None;
    }
  }
}
