# PyDPainter core in Dafny

PyDPainter is a pixel-art paint program in the style of Deluxe Paint. This
project models the core of PyDPainter and proves properties of its
pieces:

- the IFF/ILBM picture codec (`libs/picio.py`): the ByteRun1 run-length
  coder, the planar/chunky conversion, the chunk readers of `load_iff` and
  the chunk writer;
- the drawing primitives (`libs/prim.py`): lines, circles and filled
  circles, the symmetry modes, the vertical-line fragment list, the
  horizontal span painter, the flood fill, the polygon scan fill and the
  brush size setter;
- the requestor toolkit (`libs/gadget.py`): gadget hit tests, the slider
  and text-field state machine, TAB focus, and `str2req`, which turns a
  text picture of a dialog into gadgets;
- the palette, undo, font-scale, grid-snap and key arithmetic of
  `libs/config.py`;
- the betting rules of the small slot machine game in `slot.py`.

Each module is one `.dfy` file:

- `support.dfy`: Python's floor division and remainder, bit helpers, and
  `Option`/`Result`.
- `byterun.dfy`: ByteRun1 encode and decode.
- `planar.dfy`: p2c, c2p and w2b.
- `ilbm.dfy`: iff_type, chunk reading and writing, the chunk effects of
  load_iff, and decode_ilbm_body.
- `geometry.dfy`: onscreen, rect_onscreen, add_bounds and
  convert_curve_control.
- `lines.dfy`: drawline and `CoordList`.
- `circles.dfy`: drawcircle and fillcircle.
- `symmetry.dfy`: symm_coords.
- `fragments.dfy`: add_vline and the merge step of drawvlines.
- `spans.dfy`: hline.
- `floodfill.dfy`: floodfill.
- `polygons.dfy`: fillpoly.
- `brushes.dfy`: `Brush` and `BrushCache`.
- `gadgets.dfy`: `Gadget` and `Requestor`.
- `reqparse.dfy`: str2req.
- `palette.dfy`: quantize_palette and unique_palette.
- `undo.dfy`: the undo history.
- `display.dfy`: closest_scale4.
- `input.dfy`: grid snap and the global keys.
- `slot.dfy`: the slot machine.

Where the source changes things step by step, the model does too:
- a loop becomes a `method` with its invariants;
- an object whose fields are updated becomes a `class`;
- a numpy array written in place becomes an `array2`.

Most such methods are proved equal to a function of the old state, and
the lemmas about that function state what the source promises. The
fragment merges of drawvlines and floodfill are specified by what they
keep and what they do instead: the rows covered stay the same, the list
shrinks exactly when two of its fragments pass the merge test, and
otherwise it is left as it was (sorted, for drawvlines). Pure helpers
are functions.

Python semantics are written out where they matter:
- floor division and remainder;
- uint8 wrap-around in the ByteRun encoder and in p2c's shifts;
- slice assignment that resizes a bytearray;
- IndexError and ZeroDivisionError as error values.

File, screen and clock access are parameters.

## Model

| member | source | states |
|---|---|---|
| ByteRun.Signed | Big_files/PyDPainter-master/libs/picio.py:86 | The control byte read as a signed number lies in -128..127 and is congruent to the byte modulo 256. |
| ByteRun.ByteRunDecode | Big_files/PyDPainter-master/libs/picio.py:80-101 | The loop leaves in the output buffer exactly what the decoder semantics `Decode` gives from positions 0, 0, including the IndexError outcome. |
| ByteRun.DecodeLiteral | Big_files/PyDPainter-master/libs/picio.py:88-92 | A control byte n in 0..127 copies the next n+1 input bytes to the write position and advances the read position by n+2 and the write position by n+1. |
| ByteRun.DecodeReplicate | Big_files/PyDPainter-master/libs/picio.py:93-98 | A control byte 257-c (signed 1-c, c in 2..128) writes c copies of the next byte and advances the read position by 2. |
| ByteRun.DecodeNoOp | Big_files/PyDPainter-master/libs/picio.py:99-101 | Control byte 128 consumes only itself and writes nothing. |
| ByteRun.DecodeStream | Big_files/PyDPainter-master/libs/picio.py:84-101 | A stream of records whose expansion exactly fills the rest of the buffer decodes to the bytes already written followed by that expansion; input after the stream is never read. |
| ByteRun.DecodeWire | Big_files/PyDPainter-master/libs/picio.py:80-101 | Decoding the wire form of any well-sized records into a buffer of their expanded size gives their expansion, whatever follows them. |
| ByteRun.RunsExpand | Big_files/PyDPainter-master/libs/picio.py:244-247 | The runs the encoder splits its input into concatenate back to the input. |
| ByteRun.RunsMaximal | Big_files/PyDPainter-master/libs/picio.py:244-247 | Every run is non-empty and neighbouring runs hold different values. |
| ByteRun.RunRecords | Big_files/PyDPainter-master/libs/picio.py:258-267 | The records for one run are all well sized (2..128 copies, or a one-byte literal). |
| ByteRun.RunRecordsExpand | Big_files/PyDPainter-master/libs/picio.py:258-267 | The replicate records emitted for a run of len copies of v expand to exactly len copies of v. |
| ByteRun.RunRecordsStep | Big_files/PyDPainter-master/libs/picio.py:262-264 | With more than 128 copies left, a full 128-copy record [129, v] is emitted first. |
| ByteRun.RunRecordsLast | Big_files/PyDPainter-master/libs/picio.py:266 | The last record of a run has control (257-len) mod 256, so a single leftover copy wraps to control 0, a one-byte literal. |
| ByteRun.LiteralRecords | Big_files/PyDPainter-master/libs/picio.py:269-283 | The literal records for a stretch of single bytes hold 1..128 bytes each. |
| ByteRun.LiteralRecordsExpand | Big_files/PyDPainter-master/libs/picio.py:269-283 | The literal records of a stretch of single bytes expand to that stretch. |
| ByteRun.LiteralRecordsStep | Big_files/PyDPainter-master/libs/picio.py:276-279 | With more than 128 single bytes left, a record of control 127 and the next 128 bytes comes first. |
| ByteRun.LiteralRecordsLast | Big_files/PyDPainter-master/libs/picio.py:281-282 | The last literal record is its length minus one followed by its bytes. |
| ByteRun.EncodeRecordsSound | Big_files/PyDPainter-master/libs/picio.py:238-287 | Record sizes: every record the encoder emits is a literal of 1..128 bytes or a replicate of 2..128 copies, and together the records expand back to the input. |
| ByteRun.RoundTrip | Big_files/PyDPainter-master/libs/picio.py:80-101 | byterun_decode of byterun_encode(x), into any buffer of len(x) bytes, yields x, with or without trailing input. |
| ByteRun.EncodeExample | Big_files/PyDPainter-master/libs/picio.py:238-287 | [5,5,5,5,5,9,9,1,2,3] encodes to [252,5,255,9,2,1,2,3]. |
| ByteRun.ByteRunEncode | Big_files/PyDPainter-master/libs/picio.py:238-287 | The encoder returns None exactly for an empty input, and otherwise the wire bytes of the record sequence specified by the run split. |
| ByteRun.EncodeLoop | Big_files/PyDPainter-master/libs/picio.py:250-285 | The main loop over the run lengths (with the sentinel 0) emits the wire bytes of the records for all runs. |
| ByteRun.CountSingles | Big_files/PyDPainter-master/libs/picio.py:271-274 | The inner count finds the whole stretch of runs of length one starting at j and stops at the first run that is not, without passing the sentinel. |
| ByteRun.EmitRepeat | Big_files/PyDPainter-master/libs/picio.py:258-267 | The replicate branch appends exactly the wire bytes of the run's records. |
| ByteRun.EmitLiteral | Big_files/PyDPainter-master/libs/picio.py:276-282 | The literal branch appends exactly the wire bytes of the literal records of the stretch. |
| Planar.W2BBounds | Big_files/PyDPainter-master/libs/picio.py:29-30 | A bitplane row of w2b(w) bytes is a whole number of 16-bit words holding at least w and fewer than w+16 pixels, exactly w when w is a multiple of 16. |
| Planar.ShiftedBitValue | Big_files/PyDPainter-master/libs/picio.py:60-69 | Masking bit `bit` and shifting by bit-i in a uint8 moves that bit to position i, and loses it for planes 8 and above. |
| Planar.ChunkyPixelBits | Big_files/PyDPainter-master/libs/picio.py:53-77 | Bit placement: bit i of pixel 8k+(7-bit) is bit `bit` of byte k of plane i, for every plane below 8, and the pixel is below 2^min(n,8). |
| Planar.ChunkyPixelByte | Big_files/PyDPainter-master/libs/picio.py:72-77 | Every pixel p2c writes fits its 8-bit surface. |
| Planar.P2C | Big_files/PyDPainter-master/libs/picio.py:53-77 | After p2c every surface pixel (x, y) is the chunky pixel assembled from bit 7-(x mod 8) of byte x div 8 of each plane of row y. |
| Planar.MaskPlanes | Big_files/PyDPainter-master/libs/picio.py:60-69 | The copied planes keep their shape and each byte of plane i holds only bit `bit`, moved to position i. |
| Planar.FlattenPlanes | Big_files/PyDPainter-master/libs/picio.py:72-74 | The OR of the shifted planes gives, for every row and byte, the sum of the planes' single bits. |
| Planar.WriteColumns | Big_files/PyDPainter-master/libs/picio.py:77 | Writing `surf[off::8,:]` sets column 8k+off to byte k of every row and leaves the other columns unchanged. |
| Planar.C2P | Big_files/PyDPainter-master/libs/picio.py:290-295 | c2p fails exactly for an empty surface or a non-empty one whose width is not a multiple of 16 (the reshape raises); otherwise it yields h rows of 8 planes of w/8 bytes. |
| Planar.PlanarRoundTrip | Big_files/PyDPainter-master/libs/picio.py:53-77 | For a width that is a multiple of 16 and pixels below 2^p, p2c of the first p planes of c2p restores every pixel. |
| Planar.PlaneBitOfPixel | Big_files/PyDPainter-master/libs/picio.py:290-295 | Bit 7-(x mod 8) of byte x div 8 of plane i of row y in c2p's result is bit i of pixel (x, y). |
| Ilbm.IffType | Big_files/PyDPainter-master/libs/picio.py:33-50 | iff_type answers "NONE" exactly when the file cannot be read, "ILBM" or "ANIM" exactly when bytes 0..3 are FORM and bytes 8..11 are that form type, and "" for every other readable file. |
| Ilbm.PackU32RoundTrip | Big_files/PyDPainter-master/libs/picio.py:203 | unpack(">I") of pack(">I", n) is n for every 32-bit n. |
| Ilbm.WriteChunk | Big_files/PyDPainter-master/libs/picio.py:202-203 | write_chunk emits the 4-byte name, the 4-byte length and the payload: 8 bytes more than the payload, with no pad byte. |
| Ilbm.ReadChunk | Big_files/PyDPainter-master/libs/picio.py:125-175 | The chunk reader only yields a chunk when the 8 header bytes are there, and always moves past them. |
| Ilbm.WriteChunkRead | Big_files/PyDPainter-master/libs/picio.py:202-203 | An even-length chunk written by write_chunk is read back as the same name and payload, and the reader resumes right after it. |
| Ilbm.WriteChunkOdd | Big_files/PyDPainter-master/libs/picio.py:202-203 | Because write_chunk adds no pad byte, after an odd-length payload the reader resumes one byte into whatever follows. |
| Ilbm.Crng | Big_files/PyDPainter-master/libs/picio.py:128-132 | A CRNG payload is accepted exactly when it has the 8 bytes of ">HHHBB"; the range gets low and high from bytes 6 and 7 and a 16-bit rate. |
| Ilbm.Ccrt | Big_files/PyDPainter-master/libs/picio.py:133-140 | A CCRT payload fails with a struct error exactly when it is not 14 bytes long. It fails with ZeroDivisionError exactly when its timing sums to 0 ms. Otherwise its rate is 273067 // (micro // 1000 + sec * 1000) over the signed fields at bytes 4 and 8, low and high come from bytes 2 and 3, and flags is 3 when dir > 0 and 1 otherwise. |
| Ilbm.CcrtFields | Big_files/PyDPainter-master/libs/picio.py:133-140 | The 14 bytes of pack(">hBBiih", dir, low, high, sec, micro, pad) decode to the range with rate 273067 // (micro // 1000 + sec * 1000), flags 3 when dir > 0 and 1 otherwise, and the given low and high. A zero divisor gives ZeroDivisionError. |
| Ilbm.S16At | Big_files/PyDPainter-master/libs/picio.py:136 | unpack(">h") reads back the signed 16-bit number pack(">h") wrote. |
| Ilbm.S32At | Big_files/PyDPainter-master/libs/picio.py:136 | unpack(">i") reads back the signed 32-bit number pack(">i") wrote, negative numbers included. |
| Ilbm.Camg | Big_files/PyDPainter-master/libs/picio.py:141-145 | A CAMG payload is accepted exactly when it has 4 bytes, and the mode kept is its value masked with OCS_MODES, so no other bit survives. |
| Ilbm.CamgRoundTrip | Big_files/PyDPainter-master/libs/picio.py:231 | A mode written with pack(">I") is read back as that mode masked with OCS_MODES. |
| Ilbm.Bmhd | Big_files/PyDPainter-master/libs/picio.py:146-149 | A BMHD payload is accepted exactly when it has the 20 bytes of ">HHhhBBBBHBBhh", and its width, height, plane count and compression come from bytes 0-1, 2-3, 8 and 10. |
| Ilbm.BmhdRoundTrip | Big_files/PyDPainter-master/libs/picio.py:219-229 | The BMHD payload save_iffinfo (compression 0) and save_iff (compression 1) pack for a width and height below 0x8000 reads back as exactly that width, height, plane count and compression. |
| Ilbm.U16At | Big_files/PyDPainter-master/libs/picio.py:149 | unpack(">H") reads back the number pack(">H") wrote. |
| Ilbm.TruncatePalette | Big_files/PyDPainter-master/libs/picio.py:150 | pal[0:1<<nPlanes] keeps the first min(len(pal), 2^nPlanes) entries unchanged. |
| Ilbm.CmapEffect | Big_files/PyDPainter-master/libs/picio.py:151-158 | After CMAP the palette has max(len(pal), len(d)//3) entries, the first len(d)//3 taken from the payload's byte triples and the rest as before. |
| Ilbm.HalfBrightEffect | Big_files/PyDPainter-master/libs/picio.py:167-169 | The extra-halfbright loop sets each existing entry j in 32..63 to half of entry j-32, changes no other entry, and raises IndexError exactly when the palette has fewer than 64 entries. |
| Ilbm.PadRangesShape | Big_files/PyDPainter-master/libs/picio.py:179-182 | The range list is padded with inactive (0, 1, 0, 0) ranges to at least six entries, keeping the loaded ranges first and in order. |
| Ilbm.Reshape | Big_files/PyDPainter-master/libs/picio.py:111-113 | reshape(h, n, wb) of a buffer of h*n*wb bytes has h rows of n planes of wb bytes. |
| Ilbm.ReshapeIndex | Big_files/PyDPainter-master/libs/picio.py:111-113 | Element (y, i, k) of the reshaped buffer is byte y*(n*wb) + i*wb + k: each scan line stores its planes one after the other. |
| Ilbm.BodyPlanes | Big_files/PyDPainter-master/libs/picio.py:104-113 | When decode_ilbm_body gets planes at all, they have h rows of n planes of wb bytes. |
| Ilbm.BodyPlanesRaw | Big_files/PyDPainter-master/libs/picio.py:112-113 | An uncompressed body is accepted exactly when it holds h*nPlanes*w2b(w) bytes, and is then used as it is. |
| Ilbm.BodyPlanesEncoded | Big_files/PyDPainter-master/libs/picio.py:108-111 | A compressed body produced by byterun_encode from interleaved planes decodes back to those planes, with or without trailing bytes. |
| Ilbm.DecodeIlbmBody | Big_files/PyDPainter-master/libs/picio.py:104-115 | A zero-width surface fails at surf_array[0]; otherwise the outcome is the body's planes' error, or the surface holds exactly the picture p2c builds from those planes. |
| Ilbm.LoadShortFile | Big_files/PyDPainter-master/libs/picio.py:118-183 | A file too short to hold a chunk after its FORM header loads nothing and sets only the display mode to 0. |
| Ilbm.CrngRoundTrip | Big_files/PyDPainter-master/libs/picio.py:234 | A range saved as save_iffinfo writes it is read back by load_iff as the same range, appended to the list, and the loop carries on after the 16-byte chunk. |
| Ilbm.CrngStep | Big_files/PyDPainter-master/libs/picio.py:128-132 | A CRNG chunk in save_iffinfo's layout appends exactly its range and changes nothing else. |
| Ilbm.Config.LoadIff | Big_files/PyDPainter-master/libs/picio.py:118-183 | load_iff leaves the palette and display mode that the chunks before an exception produced. Without an exception it stores the loaded ranges padded to six and returns the last BODY picture; with one the ranges are untouched and there is no picture. |
| Ilbm.Config.ApplyChunk | Big_files/PyDPainter-master/libs/picio.py:127-175 | The dispatch on one chunk's name has the effect of the matching chunk step on palette, mode, ranges, header and picture. |
| Ilbm.Config.ApplyOther | Big_files/PyDPainter-master/libs/picio.py:128-158 | The branches for every chunk but BODY have the effect of the chunk step, and the picture is untouched. |
| Ilbm.Config.ApplyCmap | Big_files/PyDPainter-master/libs/picio.py:151-158 | The CMAP branch leaves the palette CMAP specifies (padded with black, then overwritten from the payload) and nothing else changes. |
| Ilbm.Config.ApplyBody | Big_files/PyDPainter-master/libs/picio.py:159-171 | The BODY branch decodes into a fresh surface with the last header and then applies extra-halfbright when the mode has that bit, as the chunk step specifies. |
| Ilbm.Config.ApplyHalfBright | Big_files/PyDPainter-master/libs/picio.py:167-169 | The loop leaves the palette and error the halfbright specification gives. |
| Geometry.OnscreenPixel | Big_files/PyDPainter-master/libs/prim.py:27-35 | onscreen holds for a point exactly when the one-pixel rectangle at it has a pixel on the canvas, and rect_onscreen accepts that rectangle then. |
| Geometry.RectOnscreen | Big_files/PyDPainter-master/libs/prim.py:38-55 | rect_onscreen as written rejects a rectangle exactly when it starts right of column w or below row h, or ends left of column 0 or above row 0. |
| Geometry.RectOnscreenSound | Big_files/PyDPainter-master/libs/prim.py:38-55 | rect_onscreen never rejects a rectangle that has a pixel on the canvas. |
| Geometry.RectOnscreenEdge | Big_files/PyDPainter-master/libs/prim.py:48-52 | rect_onscreen accepts the 1x1 rectangles just right of and just left of the canvas, neither of which has a pixel on it. |
| Geometry.RectOnscreenExactIff | Big_files/PyDPainter-master/libs/prim.py:37 | The corrected test, at least partly on screen, accepts exactly the rectangles with a pixel on the canvas. |
| Geometry.FillMode.constructor | Big_files/PyDPainter-master/libs/prim.py:512-522 | A new fill mode starts with the NOBOUNDS box [65535, 65535, -1, -1]. |
| Geometry.FillMode.AddBounds | Big_files/PyDPainter-master/libs/prim.py:57-67 | add_bounds moves each side of the box out just far enough to take in the point, and leaves it where it is otherwise. |
| Geometry.WidenEncloses | Big_files/PyDPainter-master/libs/prim.py:57-67 | The widened box holds the new point and everything the old box held, and lies inside every box that holds both. |
| Geometry.ConvertCurveControlMid | Big_files/PyDPainter-master/libs/prim.py:869-880 | With the converted control point, the quadratic Bezier's midpoint is the clicked point exactly when the end points' coordinate sums are even, and within half a pixel otherwise. |
| Lines.Line | Big_files/PyDPainter-master/libs/prim.py:763-780 | drawline returns one point per step of the longer axis plus the end point, one fewer with skiplast. |
| Lines.DrawLine | Big_files/PyDPainter-master/libs/prim.py:723-780 | drawline with coordsonly returns exactly the closed-form line from coordfrom to coordto. |
| Lines.LineLoop | Big_files/PyDPainter-master/libs/prim.py:763-777 | After the Bresenham loop, point k of the list is the closed-form point k for every k below rangehi. |
| Lines.LoopNext | Big_files/PyDPainter-master/libs/prim.py:768-777 | Each turn appends the current closed-form point, and the error-term update leads to the state after one more step, diagonal exactly when the error term reaches the longer extent. |
| Lines.QuotEnd | Big_files/PyDPainter-master/libs/prim.py:763-777 | After as many steps as the longer extent, the error term has wrapped exactly as often as the shorter extent, so the walk ends on coordto. |
| Lines.LineFirst | Big_files/PyDPainter-master/libs/prim.py:768-769 | The first point is coordfrom. |
| Lines.LineLast | Big_files/PyDPainter-master/libs/prim.py:764-767 | Without skiplast the last point is coordto. |
| Lines.LineSkipLast | Big_files/PyDPainter-master/libs/prim.py:764-767 | With skiplast the line is the same list without its end point. |
| Lines.LineStep | Big_files/PyDPainter-master/libs/prim.py:752-777 | From one point to the next the longer axis moves by exactly one towards the end point and the shorter axis by at most one. |
| Lines.CoordList.Append | Big_files/PyDPainter-master/libs/prim.py:395-396 | append adds the point at the end of list listnum and changes no other list. |
| Lines.CoordList.Prepend | Big_files/PyDPainter-master/libs/prim.py:398-399 | prepend puts the point at the front of list listnum and changes no other list. |
| Lines.CoordList.EveryN | Big_files/PyDPainter-master/libs/prim.py:431-449 | With EVERY_N spacing n, draw stamps exactly the points whose running index over all lists is a multiple of n; with n equal to 0 it fails at the first point. |
| Lines.SpaceList | Big_files/PyDPainter-master/libs/prim.py:440-449 | Over one list, the running counter advances by the list's length and the stamped points are extended by those of its points with an index that is a multiple of n. |
| Circles.Outline | Big_files/PyDPainter-master/libs/prim.py:638-668 | The outline of a circle is kept in eight coordinate lists, one per octant. |
| Circles.DrawCircle | Big_files/PyDPainter-master/libs/prim.py:636-668 | For one centre, drawcircle fills its CoordList(8) with the eight mirror images of the midpoint walk over the first octant: appended to the even lists and prepended to the odd ones. |
| Circles.CircleNext | Big_files/PyDPainter-master/libs/prim.py:651-659 | One turn of the loop, with err kept as 4*err, moves to the next point of the octant and keeps err equal to the midpoint decision variable there. |
| Circles.NextDecision | Big_files/PyDPainter-master/libs/prim.py:654-659 | The incremental update of err takes the same branch as the midpoint test (x+1, y-1/2) against the circle and keeps err exact. |
| Circles.PlotStep | Big_files/PyDPainter-master/libs/prim.py:661-668 | The eight append and prepend calls of one turn extend the lists to the outline of the walk including the new point. |
| Circles.OutlineStep | Big_files/PyDPainter-master/libs/prim.py:661-668 | List by list, one turn adds exactly the eight images of the new octant point. |
| Circles.OnWalkNext | Big_files/PyDPainter-master/libs/prim.py:651-659 | Each step of the walk keeps its point between the midpoints just inside and just outside the circle. |
| Circles.OctantNearCircle | Big_files/PyDPainter-master/libs/prim.py:640-659 | Every octant point lies in the square 0..r and within y of the circle: the absolute value of x^2 + y^2 - r^2 is at most y. |
| Circles.OctantSteps | Big_files/PyDPainter-master/libs/prim.py:651-659 | The walk moves one column right per step and down at most one row, and stops once it has crossed the diagonal. |
| Circles.Disc | Big_files/PyDPainter-master/libs/prim.py:690-703 | fillcircle makes one hline call for the middle row and four per later point of the walk. |
| Circles.FillCircle | Big_files/PyDPainter-master/libs/prim.py:683-703 | For one centre, fillcircle sets the fill box to the circle's square and makes exactly the hline calls of the disc over the same octant as drawcircle, although its err is an integer. |
| Circles.DiscStep | Big_files/PyDPainter-master/libs/prim.py:692-703 | Each turn of fillcircle's loop adds the four hline calls for the new point. |
| Circles.DiscInBounds | Big_files/PyDPainter-master/libs/prim.py:687-703 | Every hline call of fillcircle stays inside the fill box it sets and runs left to right. |
| Circles.DiscMembers | Big_files/PyDPainter-master/libs/prim.py:690-703 | Every hline call is the middle row of the first point or one of the four rows of some walk point. |
| Symmetry.SymmCoords | Big_files/PyDPainter-master/libs/prim.py:96-175 | Without symmetry handling, or with symmetry off, the only copy is the point itself. Point symmetry adds the mirror image about the centre when mirroring is on. Tiled mode gives the tile grid, or ZeroDivisionError for a zero tile size. Any other mode gives just the point. |
| Symmetry.SymmTile | Big_files/PyDPainter-master/libs/prim.py:144-175 | The tiled branch's four double loops produce exactly the four blocks of the tile list. |
| Symmetry.RightDown | Big_files/PyDPainter-master/libs/prim.py:148-154 | The first block holds columns stepping right and rows stepping down from the point itself. |
| Symmetry.LeftDown | Big_files/PyDPainter-master/libs/prim.py:155-161 | The second block starts one tile left and steps left across and down the rows. |
| Symmetry.RightUp | Big_files/PyDPainter-master/libs/prim.py:162-168 | The third block starts one tile up and steps right across and up the rows. |
| Symmetry.LeftUp | Big_files/PyDPainter-master/libs/prim.py:169-175 | The fourth block starts one tile left and one tile up, and steps left and up. |
| Symmetry.TileLength | Big_files/PyDPainter-master/libs/prim.py:144-175 | Tile count: the tile list has 4 * numcols * numrows entries. |
| Symmetry.TileMembers | Big_files/PyDPainter-master/libs/prim.py:144-175 | Membership: the tile list holds exactly the point moved by i tiles across and j tiles down, for -numcols <= i < numcols and -numrows <= j < numrows. |
| Symmetry.TileNoDup | Big_files/PyDPainter-master/libs/prim.py:144-175 | Distinct points: with non-zero tile sizes no position appears twice. |
| Symmetry.BlocksDisjoint | Big_files/PyDPainter-master/libs/prim.py:147-175 | No two of the four blocks share a position when the tile sizes are non-zero. |
| Symmetry.TileFirst | Big_files/PyDPainter-master/libs/prim.py:148-152 | First point: the first copy is the brush position itself. |
| Symmetry.NumTilesPositive | Big_files/PyDPainter-master/libs/prim.py:145-146 | On a canvas of non-negative size with a positive tile size, numcols is W // tw + 1, so at least one. |
| Fragments.AddPoint | Big_files/PyDPainter-master/libs/prim.py:1006-1025 | The scan over one column's fragments gives the specified insertion: the first fragment that holds y or ends next to it takes y in, else [y, y] is appended. |
| Fragments.InsertCovers | Big_files/PyDPainter-master/libs/prim.py:1006-1027 | After inserting y the column covers exactly y in addition to what it covered, and its fragments stay well formed. |
| Fragments.InsertLength | Big_files/PyDPainter-master/libs/prim.py:1023-1025 | A new fragment is made exactly when no fragment of the column holds or touches y. |
| Fragments.AddedUpToSpec | Big_files/PyDPainter-master/libs/prim.py:1004-1027 | After the loop over xs1..xs2 the map has exactly the old columns plus xs1..xs2, each of those with y inserted, and every other column as it was. |
| Fragments.VLines.StartShape | Big_files/PyDPainter-master/libs/prim.py:69-71 | start_shape empties the vertical-line map. |
| Fragments.VLines.AddVline | Big_files/PyDPainter-master/libs/prim.py:1003-1027 | add_vline adds row y to every column xs1..xs2 and changes no other column. |
| Fragments.VLines.AddToColumn | Big_files/PyDPainter-master/libs/prim.py:1006-1027 | One turn of the loop inserts y into column x, starting a new column [[y, y]] when x is not in the map. |
| Fragments.AddVlineCovers | Big_files/PyDPainter-master/libs/prim.py:1003-1027 | Merge keeps rows, first half: after add_vline every column xs1..xs2 covers y besides what it covered before, and stays well formed. |
| Fragments.SortFragsProps | Big_files/PyDPainter-master/libs/prim.py:1228 | vlines[x].sort() yields a sorted permutation of the fragments, in Python's list order. |
| Fragments.SortFragsCovers | Big_files/PyDPainter-master/libs/prim.py:1228 | Sorting a column's fragments leaves the rows it covers as they were. |
| Fragments.HullCovers | Big_files/PyDPainter-master/libs/prim.py:1236-1239 | Two well-formed fragments that pass the merge test cover exactly the rows of their hull [min, max]. |
| Fragments.MergeAtCovers | Big_files/PyDPainter-master/libs/prim.py:1239-1240 | Replacing fragment i by the hull and popping j keeps the column well formed and covering the same rows. |
| Fragments.Collapse | Big_files/PyDPainter-master/libs/prim.py:1230-1244 | The collapse loops keep the fragments well formed, keep exactly the rows they cover, and never add fragments. The list shrinks exactly when two of its fragments pass the merge test, and it comes back unchanged when no two do. |
| Fragments.AnyMergeablePerm | Big_files/PyDPainter-master/libs/prim.py:1228-1238 | Whether two fragments of a column pass the merge test does not depend on the column's order, so sorting first changes nothing about it. |
| Fragments.VLines.Merge | Big_files/PyDPainter-master/libs/prim.py:1226-1244 | The VERT_FIT merge of drawvlines keeps every column. Each column ends sorted and covering the same rows with no more fragments; it has fewer exactly when two of its fragments passed the merge test, and otherwise it is the sorted column. |
| Fragments.MergeColumn | Big_files/PyDPainter-master/libs/prim.py:1228-1244 | Sorting and collapsing one column keeps it well formed and covering the same rows with no more fragments. It has fewer exactly when two of the column's fragments pass the merge test, and otherwise it is just the sorted column. |
| Spans.PatternTiles | Big_files/PyDPainter-master/libs/prim.py:1109-1114 | The PATTERN ink at (x, y) repeats with the brush's width and height, since it reads the brush at (x mod bw, y mod bh). |
| Spans.PaintSpan | Big_files/PyDPainter-master/libs/prim.py:1029-1032 | Writing a span sets exactly the columns xs1..xs2 of row y to the ink where there is one, and changes no other pixel. |
| Spans.Hline | Big_files/PyDPainter-master/libs/prim.py:1119-1218 | hline changes nothing off screen or off the segment, in either order of x1 and x2. The on-screen part gets the mode's ink: SOLID or the background colour paints the colour, PATTERN the tiled brush except its background. VERT_FIT also records the clipped span with add_vline, and only there is the fragment map touched. |
| Spans.RecordSpan | Big_files/PyDPainter-master/libs/prim.py:1159 | The VERT_FIT branch leaves the fragment map add_vline specifies for the clipped span. |
| Spans.ClipSpan | Big_files/PyDPainter-master/libs/prim.py:1123-1143 | The clipped span [xs1, xs2] is exactly the on-canvas part of the segment from x1 to x2, in either order. |
| Brushes.BrushCache.constructor | Big_files/PyDPainter-master/libs/prim.py:178-187 | A new cache has 256 slots, each with no image, type -1 and background -1. |
| Brushes.Brush.constructor | Big_files/PyDPainter-master/libs/prim.py:196-233 | A CUSTOM brush takes width and height from the grabbed rectangle in either corner order, its handle at their halves and its size as their mean. Other brushes get the given size, handle size//2 and a rectangle starting at minus the handle. Every brush starts with an empty cache. |
| Brushes.ResizedBounds | Big_files/PyDPainter-master/libs/prim.py:240-247 | Brush size setter: the size always ends in [1, 100]; a size already in range is kept and a larger one becomes 100. The type changes only for a size below 1, and then from SQUARE or SPRAY to CIRCLE. |
| Brushes.ResizedIdempotent | Big_files/PyDPainter-master/libs/prim.py:239-260 | Setting the same size twice is the same as setting it once. |
| Brushes.ResizedStable | Big_files/PyDPainter-master/libs/prim.py:266-270 | Re-applying the brush's own size, as the type setter does, changes nothing once the size has been set. |
| Brushes.HandleCentred | Big_files/PyDPainter-master/libs/prim.py:249-260 | For CIRCLE and SQUARE brushes the handle is the centre of the image render_image draws, and the rectangle starts at minus the handle. |
| Brushes.Brush.SetSize | Big_files/PyDPainter-master/libs/prim.py:239-260 | The size setter leaves the geometry the size rules give and a fresh, empty cache, and keeps the background colour. |
| Brushes.Brush.SetType | Big_files/PyDPainter-master/libs/prim.py:266-270 | Setting the current type changes nothing; a new type is installed and the size setter re-run on the current size, with a fresh cache. |
| Polygons.MinOf | Big_files/PyDPainter-master/libs/prim.py:1452-1455 | min over a non-empty list is one of its elements and no larger than any. |
| Polygons.MaxOf | Big_files/PyDPainter-master/libs/prim.py:1452-1456 | max over a non-empty list is one of its elements and no smaller than any. |
| Polygons.Ring | Big_files/PyDPainter-master/libs/prim.py:1458-1460 | For a non-empty vertex list the ring fillpoly walks has at least one and at most all of the vertices (the last is dropped when it repeats the first). |
| Polygons.EdgeAt | Big_files/PyDPainter-master/libs/prim.py:1468-1488 | Every edge the loop keeps is oriented downwards, y1 < y2; horizontal edges are skipped. |
| Polygons.Intersections | Big_files/PyDPainter-master/libs/prim.py:1467-1493 | The intersection loop over the ring leaves in polyints the crossings of the edges with scanline y, edge by edge in ring order. |
| Polygons.EdgeCrossing | Big_files/PyDPainter-master/libs/prim.py:1469-1493 | One turn of the loop adds exactly edge i's crossing with scanline y: none for a horizontal edge; otherwise the floor-divided x when y is in [y1, y2), or in (y1, y2] on the bottom line. |
| Polygons.CrossingBetween | Big_files/PyDPainter-master/libs/prim.py:1490-1493 | A crossing lies between the x coordinates of its edge's two ends. |
| Polygons.CrossingSides | Big_files/PyDPainter-master/libs/prim.py:1490-1493 | An edge crosses scanline y exactly when its two ends lie on different sides of it, with the bottom line counted inclusively. |
| Polygons.IntsEven | Big_files/PyDPainter-master/libs/prim.py:1467-1498 | Every scanline meets the closed ring an even number of times, so pairing polyints[i] with polyints[i+1] never runs off the end. |
| Polygons.IntsParity | Big_files/PyDPainter-master/libs/prim.py:1467-1493 | The crossings of the first k edges are odd in number exactly when the walk from the last vertex to vertex k - 1 has changed sides of the scanline an odd number of times. |
| Polygons.IntsWithin | Big_files/PyDPainter-master/libs/prim.py:1467-1493 | Every crossing lies within the x extent of the vertices. |
| Polygons.SortIntsProps | Big_files/PyDPainter-master/libs/prim.py:1495 | polyints.sort() yields a sorted permutation of the crossings. |
| Polygons.RowIntsEven | Big_files/PyDPainter-master/libs/prim.py:1495-1498 | The sorted crossings of every scanline come in pairs. |
| Polygons.FillPoly | Big_files/PyDPainter-master/libs/prim.py:1441-1498 | For an empty vertex list fillpoly does nothing. Otherwise it sets the fill bounds to the vertices' extent and draws, from the top vertex's row to the bottom one's, one span per pair of sorted crossings. |
| Polygons.ScanRows | Big_files/PyDPainter-master/libs/prim.py:1464-1498 | The scanning loop produces the spans of every scanline from miny to maxy, in order. |
| Polygons.ScanRow | Big_files/PyDPainter-master/libs/prim.py:1467-1498 | One scanline's spans are the pairs of its sorted crossings. |
| Polygons.RowCrossings | Big_files/PyDPainter-master/libs/prim.py:1467-1495 | The crossings of one scanline are collected and then sorted. |
| Polygons.EmitPairs | Big_files/PyDPainter-master/libs/prim.py:1497-1498 | The pairing loop makes one hline call per consecutive pair of the sorted crossings. |
| Polygons.PairsWithin | Big_files/PyDPainter-master/libs/prim.py:1497-1498 | Pairing sorted crossings in a range gives spans inside that range, left end first, on the scanline. |
| Polygons.RowsWithin | Big_files/PyDPainter-master/libs/prim.py:1464-1498 | Every span of scanlines lo..hi-1 lies on one of those lines and within the vertices' x extent, left end first. |
| Polygons.RowIntsWithin | Big_files/PyDPainter-master/libs/prim.py:1467-1495 | The sorted crossings of a scanline are sorted and within the vertices' x extent. |
| Polygons.PolySpansInBounds | Big_files/PyDPainter-master/libs/prim.py:1451-1498 | Every span fillpoly draws lies inside the bounds it installs, left end first. |
| FloodFill.Fill | Big_files/PyDPainter-master/libs/prim.py:1353-1438 | SOLID floodfill with symmetry off does nothing when the seed is off the canvas or already has the fill colour. Otherwise it recolours exactly the 4-connected region of the seed's colour holding the seed; the fill bounds enclose every recoloured pixel, and each row of the scanline hash covers exactly that row's recoloured pixels. |
| FloodFill.Visit | Big_files/PyDPainter-master/libs/prim.py:1373-1412 | One turn of the loop either fills a new pixel of the seed's colour or drops the popped entry, and keeps the loop invariant: the painted pixels, bounds and scanline hash agree with the filled set, which is connected to the seed and closed under the stack. |
| FloodFill.AddToRow | Big_files/PyDPainter-master/libs/prim.py:1384-1406 | Recording a filled pixel leaves the row's fragments covering exactly the filled pixels of that row. |
| FloodFill.CollapseRows | Big_files/PyDPainter-master/libs/prim.py:1416-1429 | The collapse of every row keeps the rows and each row covering exactly the filled pixels. A row loses fragments exactly when two of them end next to each other, and otherwise it is unchanged. |
| FloodFill.SkipStep | Big_files/PyDPainter-master/libs/prim.py:1376-1380 | A popped entry that is off the canvas or no longer of the seed's colour is dropped without breaking the invariant. |
| FloodFill.FillStep | Big_files/PyDPainter-master/libs/prim.py:1381-1412 | A popped entry of the seed's colour is filled and its four neighbours pushed, and the invariant holds for the larger filled set. |
| FloodFill.Complete | Big_files/PyDPainter-master/libs/prim.py:1374-1412 | Once the stack is empty every pixel connected to the seed through pixels of its colour is filled. |
| FloodFill.ScanlineStep | Big_files/PyDPainter-master/libs/prim.py:1384-1406 | Inserting x into row y's fragments keeps the scanline hash equal to the filled pixels row by row. |
| FloodFill.WidenBounded | Big_files/PyDPainter-master/libs/prim.py:1382 | add_bounds keeps the fill bounds around every filled pixel, the new one included. |
| FloodFill.SoundFill | Big_files/PyDPainter-master/libs/prim.py:1377-1381 | Filling a pixel of the seed's colour that is the seed or has a filled neighbour keeps every filled pixel of that colour and connected to the seed. |
| FloodFill.PushedFill | Big_files/PyDPainter-master/libs/prim.py:1409-1412 | After pushing the four neighbours of the new pixel, every stack entry is the seed or a neighbour of a filled pixel. |
| FloodFill.ClosedFill | Big_files/PyDPainter-master/libs/prim.py:1409-1412 | Every neighbour of a filled pixel is filled, is not of the seed's colour, or waits on the stack. |
| FloodFill.PathFilled | Big_files/PyDPainter-master/libs/prim.py:1374-1412 | When the stack is empty, every pixel on a 4-connected path of the seed's colour from the seed is filled. |
| Gadgets.PointInEdges | Big_files/PyDPainter-master/libs/gadget.py:308-315 | pointin is half-open across and closed down: the column right of the rectangle is outside, the row just below its last row is inside. |
| Gadgets.Coords2Prop | Big_files/PyDPainter-master/libs/gadget.py:276-294 | coords2prop gives None exactly for a non-slider and divides by zero exactly when the track is one font cell long. Otherwise, with maxvalue at least 1, the value is clamped into [0, maxvalue - 1]. |
| Gadgets.Coords2PropMonotone | Big_files/PyDPainter-master/libs/gadget.py:279-294 | On a track longer than a cell the value never decreases as the mouse moves right (PROP) or up (PROP_VERT). |
| Gadgets.Coords2PropEnds | Big_files/PyDPainter-master/libs/gadget.py:279-286 | The left end of a PROP track gives 0, and the point one cell before its right end gives maxvalue - 1. |
| Gadgets.Coords2Char | Big_files/PyDPainter-master/libs/gadget.py:296-306 | coords2char gives a cursor position in [0, len(value)]. |
| Gadgets.Coords2CharCell | Big_files/PyDPainter-master/libs/gadget.py:300-306 | A click anywhere in the cell drawn for cursor position i puts the cursor at i. |
| Gadgets.CursorStaysInText | Big_files/PyDPainter-master/libs/gadget.py:421-555 | Any event keeps a string field's cursor within its text and its text within maxvalue. The gadget type, rectangle and maxvalue never change, and a string field never raises. |
| Gadgets.EditKeepsCursor | Big_files/PyDPainter-master/libs/gadget.py:509-535 | Every editing key keeps the cursor within the text and the text within maxvalue. |
| Gadgets.EditingKeys | Big_files/PyDPainter-master/libs/gadget.py:509-531 | A focused string field reports KEY for any key. RIGHT, LEFT, HOME and END move the cursor, clamped. BACKSPACE and DELETE remove the character before or at the cursor when there is one. RETURN, keypad ENTER and ESCAPE, and only these, unselect it and also report GADGETUP. |
| Gadgets.TypedInput | Big_files/PyDPainter-master/libs/gadget.py:532-535 | Any other key inserts its text at the cursor and advances the cursor, exactly when the text is one character in [32, 128) and the field is not full. Otherwise neither the text nor the cursor changes. |
| Gadgets.TypeThenBackspace | Big_files/PyDPainter-master/libs/gadget.py:522-535 | Typing a printable character into a field that is not full and then pressing BACKSPACE restores the text and the cursor. |
| Gadgets.BoolTransitions | Big_files/PyDPainter-master/libs/gadget.py:434-553 | BOOL button: a left press inside selects it; moving out holds it (state 2), and moving back in selects it again; a release always ends the press. GADGETUP is reported exactly on a release inside while selected. |
| Gadgets.SliderStaysInRange | Big_files/PyDPainter-master/libs/gadget.py:434-499 | Presses, wheel steps and drags keep a slider's value in [0, maxvalue - 1]; the only failure is the division by zero of a one-cell track. |
| Gadgets.UnselectedSlider | Big_files/PyDPainter-master/libs/gadget.py:441-478 | The not-selected block keeps a slider's type, rectangle and maxvalue and its value in range, and fails only on a one-cell track. |
| Gadgets.SelectedSlider | Big_files/PyDPainter-master/libs/gadget.py:490-499 | The selected block keeps a slider's value in range, and fails only on a one-cell track. |
| Gadgets.LabelClick | Big_files/PyDPainter-master/libs/gadget.py:462-538 | A left click on a LABEL reports GADGETDOWN and then GADGETUP in the same call, and leaves it unselected and otherwise unchanged. |
| Gadgets.DigitsRoundTrip | Big_files/PyDPainter-master/libs/gadget.py:274 | The decimal digits str() writes for a natural number read back as that number. |
| Gadgets.GadgetIdInjective | Big_files/PyDPainter-master/libs/gadget.py:273-274 | Default ids str(x) + "_" + str(y) of gadgets at different non-negative positions differ. |
| Gadgets.Gadget.constructor | Big_files/PyDPainter-master/libs/gadget.py:245-274 | A new gadget is unselected with its cursor at 0. A missing value is 0 for a slider and "" for a string field, a missing maxvalue is 100 for a slider and 1 for a string field, and a missing id is built from the rectangle's corner. |
| Gadgets.Gadget.ProcessEvent | Big_files/PyDPainter-master/libs/gadget.py:421-555 | The new fields and the events reported are those of Step. A disabled gadget ignores the event, and on ZeroDivisionError nothing has changed. |
| Gadgets.Gadget.Unselect | Big_files/PyDPainter-master/libs/gadget.py:434-478 | The not-selected block updates the fields as Unselected says. |
| Gadgets.Gadget.Select | Big_files/PyDPainter-master/libs/gadget.py:481-542 | The selected block updates the fields as Selected says. |
| Gadgets.Gadget.EditText | Big_files/PyDPainter-master/libs/gadget.py:509-535 | The key handling of a focused string field updates the fields as Edit says. |
| Gadgets.Gadget.HeldAway | Big_files/PyDPainter-master/libs/gadget.py:545-553 | The held-outside block updates the fields as Away says. |
| Gadgets.FaultSticks | Big_files/PyDPainter-master/libs/gadget.py:585-586 | After a gadget raises, the gadgets later in the list are not reached. |
| Gadgets.StepPrefixEach | Big_files/PyDPainter-master/libs/gadget.py:585-586 | Each gadget of the list sees the event once, in list order, and ends as Step makes it from its own state; gadgets not yet reached are unchanged. |
| Gadgets.Order | Big_files/PyDPainter-master/libs/gadget.py:608-611 | TAB walks the gadget list in order, and with shift in reverse. |
| Gadgets.OrderValid | Big_files/PyDPainter-master/libs/gadget.py:608-611 | Both TAB orders visit every gadget exactly once. |
| Gadgets.TabMovesFocus | Big_files/PyDPainter-master/libs/gadget.py:605-621 | TAB with a focused string field unfocuses the first such field in TAB order. The next string field after it, if any, gains the focus with its cursor at the end of its text, and nothing else changes. There is no wrap-around. |
| Gadgets.TabNoFocus | Big_files/PyDPainter-master/libs/gadget.py:605-621 | TAB when no string field is focused changes nothing. |
| Gadgets.Requestor.constructor | Big_files/PyDPainter-master/libs/gadget.py:558-578 | A titled requester starts with the title gadget "__reqtitle", a LABEL over its top edge as high as a line; an untitled one starts with no gadgets. |
| Gadgets.Requestor.Add | Big_files/PyDPainter-master/libs/gadget.py:580-581 | add appends the gadget to the list. |
| Gadgets.Requestor.ProcessEvent | Big_files/PyDPainter-master/libs/gadget.py:583-623 | The gadgets end as Dispatch makes them, and the events reported are those of every gadget tagged with its index. A gadget that raises ends the call with the error, after the earlier gadgets have been updated. |
| Gadgets.Requestor.RunGadgets | Big_files/PyDPainter-master/libs/gadget.py:585-586 | The dispatch loop leaves the gadgets as StepPrefix over the whole list makes them. |
| Gadgets.Requestor.StepGadget | Big_files/PyDPainter-master/libs/gadget.py:585-586 | One turn of the dispatch loop advances the gadgets by gadget i and keeps the record of the events so far. |
| Gadgets.Requestor.TabCycle | Big_files/PyDPainter-master/libs/gadget.py:605-621 | The TAB walk leaves the gadgets as TabFocus makes them. |
| Gadgets.Requestor.TabVisit | Big_files/PyDPainter-master/libs/gadget.py:612-621 | One turn of the TAB walk either ends it in its final state or leaves a state from which the rest of the walk gives the same result. |
| ReqParse.RStrip | Big_files/PyDPainter-master/libs/gadget.py:833 | str.rstrip() removes exactly the trailing white space: a prefix of the line, ending in a non-space, with only white space cut. |
| ReqParse.FindFirst | Big_files/PyDPainter-master/libs/gadget.py:723-796 | str.find returns the first matching index at or after the start or -1, skipping no match. |
| ReqParse.RunsSound | Big_files/PyDPainter-master/libs/gadget.py:743-797 | Every run the slider, field and label loops record is maximal and lies after the starting column. |
| ReqParse.RunsOrdered | Big_files/PyDPainter-master/libs/gadget.py:743-797 | The runs are found left to right with a gap between any two. |
| ReqParse.RunsCover | Big_files/PyDPainter-master/libs/gadget.py:743-797 | A column holds a picked character exactly when it lies in one of the runs. |
| ReqParse.EraseAll | Big_files/PyDPainter-master/libs/gadget.py:750-753 | After a run phase the line has its length, holds no character of that class and keeps every other character. |
| ReqParse.EraseRuns | Big_files/PyDPainter-master/libs/gadget.py:741-797 | The horizontal-slider and string-field loops over a line record exactly RunsFrom and blank every run. |
| ReqParse.Words | Big_files/PyDPainter-master/libs/gadget.py:832-845 | The label loop records exactly the words of the right-stripped line. |
| ReqParse.MaxWidthIsMax | Big_files/PyDPainter-master/libs/gadget.py:704-711 | maxlen is the largest line width, a closing ']' in the last column not counted, and 0 without lines. |
| ReqParse.ScanWidths | Big_files/PyDPainter-master/libs/gadget.py:704-711 | The width loop computes MaxWidth. |
| ReqParse.PaddedShape | Big_files/PyDPainter-master/libs/gadget.py:713-715 | Padding keeps each line's text as a prefix, adds only spaces, and leaves every line at least maxlen long. |
| ReqParse.PadLines | Big_files/PyDPainter-master/libs/gadget.py:713-715 | The padding loop computes Padded. |
| ReqParse.RequestorFontyAsWritten | Big_files/PyDPainter-master/libs/gadget.py:568-574 | Requestor.__init__ as written reads ysize from its font argument, so with no font it raises AttributeError. |
| ReqParse.DefaultFontRaises | Big_files/PyDPainter-master/libs/gadget.py:574 | str2req without a font lays out with 12-pixel lines, but the Requestor it builds raises. |
| ReqParse.RequestorFonty | Big_files/PyDPainter-master/libs/gadget.py:568-574 | The corrected line height, that of the font actually used, never fails. |
| ReqParse.RequestorFontyAgrees | Big_files/PyDPainter-master/libs/gadget.py:691-696 | The corrected line height agrees with the code as written whenever a font is given, and equals the line height str2req lays out with. |
| ReqParse.PairsSound | Big_files/PyDPainter-master/libs/gadget.py:723-738 | Every bracket pair the button loop visits runs from a '[' to the first ']' after it, and the pairs lie left to right without overlapping. |
| ReqParse.SplitJoin | Big_files/PyDPainter-master/libs/gadget.py:728 | '~'.join of text.split('~') gives the text back. |
| ReqParse.SplitPieces | Big_files/PyDPainter-master/libs/gadget.py:728 | No piece of a split holds the separator. |
| ReqParse.JoinSplit | Big_files/PyDPainter-master/libs/gadget.py:728 | Splitting the join of separator-free pieces gives the pieces back. |
| ReqParse.ColumnsJoin | Big_files/PyDPainter-master/libs/gadget.py:729-732 | A button group takes one column more than its bracket text. |
| ReqParse.GroupTiles | Big_files/PyDPainter-master/libs/gadget.py:726-732 | The buttons of a group tile the columns from its '[' to just before its ']': each is one column wider than its label and starts where the previous one ends. Their labels hold no '~' and, joined with '~', give the bracket text back. |
| ReqParse.AddGroup | Big_files/PyDPainter-master/libs/gadget.py:728-732 | The loop over one group's labels adds one button per label, as Group lays them out. |
| ReqParse.BlankAllAt | Big_files/PyDPainter-master/libs/gadget.py:733-736 | After the button loop a column is blank exactly when it lies inside a visited bracket pair; every other column keeps its character. |
| ReqParse.ButtonLine | Big_files/PyDPainter-master/libs/gadget.py:721-738 | The button loop over a line adds the buttons of every visited pair and blanks the pairs. |
| ReqParse.RunSpecs | Big_files/PyDPainter-master/libs/gadget.py:741-797 | The slider phase adds one PROP gadget per maximal run of '-', as wide as the run, with maxvalue twice its length. The field phase adds one STRING gadget per maximal run of '_', with maxvalue one less than its length. |
| ReqParse.RunPhase | Big_files/PyDPainter-master/libs/gadget.py:721-845 | Each row loop adds the gadgets of every line in order and leaves the lines as the phase blanks them. |
| ReqParse.DownAt | Big_files/PyDPainter-master/libs/gadget.py:767-774 | Down counts exactly the consecutive vertical bars from a row down in one column. |
| ReqParse.TopDown | Big_files/PyDPainter-master/libs/gadget.py:765-774 | The bars whose column starts at a top are exactly the Down rows from that top. |
| ReqParse.VertPhase | Big_files/PyDPainter-master/libs/gadget.py:760-777 | The vertical loop adds one PROP_VERT slider per column of vertical bars, ordered by top row and then by column, and blanks every vertical bar. |
| ReqParse.VertColumn | Big_files/PyDPainter-master/libs/gadget.py:765-774 | The loop down a column blanks every bar of it and counts them. |
| ReqParse.PreparedShape | Big_files/PyDPainter-master/libs/gadget.py:705-715 | After padding no line holds a vertical bar beyond maxlen, since only a line ending in ']' is longer. So the vertical loop's reqlines[lend][col] never leaves a line. |
| ReqParse.Str2Req | Big_files/PyDPainter-master/libs/gadget.py:683-850 | str2req without custom characters returns a new requester sized by the widest line and the line count. Its gadgets, all new, are the title bar when there is a title, then the buttons, horizontal sliders, vertical sliders, string fields and labels of the layout, in that order. |
| ReqParse.Measure | Big_files/PyDPainter-master/libs/gadget.py:685-715 | The preparation drops a blank first line, picks the character cell, finds maxlen and the height, and pads the lines. |
| ReqParse.Phases | Big_files/PyDPainter-master/libs/gadget.py:720-845 | The phases in turn find exactly Layout. |
| ReqParse.AddSpecs | Big_files/PyDPainter-master/libs/gadget.py:731-844 | The req.add calls append one new gadget per spec, in order, and keep the earlier gadgets. |
| ReqParse.PhaseSpecsFrom | Big_files/PyDPainter-master/libs/gadget.py:721-845 | Every gadget a phase finds comes from one of its lines. |
| ReqParse.LineAfterBlanks | Big_files/PyDPainter-master/libs/gadget.py:733-797 | Each phase keeps every line's length and changes characters only to spaces. |
| ReqParse.ShapeAfter | Big_files/PyDPainter-master/libs/gadget.py:720-797 | The phases keep the lines at least maxlen long with no vertical bar beyond it. |
| ReqParse.LineLabelsClean | Big_files/PyDPainter-master/libs/gadget.py:832-845 | In a line free of '-', '_' and vertical bars, every label is a non-empty word of other characters. |
| ReqParse.AfterFieldsClean | Big_files/PyDPainter-master/libs/gadget.py:741-797 | What the label phase sees holds no '-', '_' or vertical bar. |
| ReqParse.LabelsClean | Big_files/PyDPainter-master/libs/gadget.py:831-845 | Every label is a non-empty word without spaces, '-', '_' or vertical bar. |
| Palette.QuantizeLevel | Big_files/PyDPainter-master/libs/config.py:57 | A quantised channel c // 16 * 17 is one of the 16 levels 0, 17, ..., 255, keeps the level c // 16 of its input and lies within 15 of it. |
| Palette.QuantizeFixed | Big_files/PyDPainter-master/libs/config.py:57 | Quantisation leaves a channel unchanged exactly when it is a multiple of 17. |
| Palette.QuantizePaletteShape | Big_files/PyDPainter-master/libs/config.py:52-60 | quantize_palette keeps the length. At depth 16 it moves every channel to a multiple of 17 within 15 of the original; at any other depth it returns the palette unchanged. |
| Palette.QuantizeIdempotent | Big_files/PyDPainter-master/libs/config.py:52-60 | Quantising a quantised palette changes nothing. |
| Palette.MakeColorSkew | Big_files/PyDPainter-master/libs/config.py:62-68 | The three nested loops build exactly the color_skew table. |
| Palette.SkewBlock | Big_files/PyDPainter-master/libs/config.py:64-68 | The middle loop for one r gives the entries for g from 1 to r. |
| Palette.SkewRow | Big_files/PyDPainter-master/libs/config.py:65-68 | The innermost loop for one r and g gives the entries for b from 1 to g. |
| Palette.SkewBounds | Big_files/PyDPainter-master/libs/config.py:66-68 | The skew of a counter n in [1, 15] is n // 2 in absolute value, so at most 7. |
| Palette.ColorSkewSmall | Big_files/PyDPainter-master/libs/config.py:62-68 | No entry of color_skew moves a channel by more than 7. |
| Palette.SkewRLength | Big_files/PyDPainter-master/libs/config.py:62-68 | The table has (hi^3 - hi - 6) / 6 entries for r below hi, so 679 with r up to 15. |
| Palette.PickColor | Big_files/PyDPainter-master/libs/config.py:76-88 | The inner while loop picks the first colour, starting with the entry itself and then each skewed one in turn, that is on screen and not in paldict. It fails when the table runs out. |
| Palette.UniquePalette | Big_files/PyDPainter-master/libs/config.py:70-92 | unique_palette picks each entry against the colours picked before it, as Unique defines, and fails with IndexError when one entry exhausts the table. |
| Palette.UniqueErrStays | Big_files/PyDPainter-master/libs/config.py:74-90 | Once an entry finds no free colour the whole call fails. |
| Palette.UniqueSound | Big_files/PyDPainter-master/libs/config.py:70-92 | A successful unique_palette keeps the length and makes every entry distinct. It keeps each entry that differs from all the picks before it; any other entry is replaced by that entry moved by some offset of the table. |
| Palette.PickSound | Big_files/PyDPainter-master/libs/config.py:76-88 | The picked colour is not yet used. It is the entry itself when that is free, and otherwise the entry moved by an offset of the table. |
| Palette.FirstFreeSound | Big_files/PyDPainter-master/libs/config.py:79-88 | A colour the skew search finds from entry j is unused and is the entry moved by an offset from entry j on. |
| Palette.UniqueDistinct | Big_files/PyDPainter-master/libs/config.py:70-92 | A palette whose entries already differ is returned unchanged. |
| Palette.UniqueNear | Big_files/PyDPainter-master/libs/config.py:70-92 | With color_skew's small offsets every replacement colour lies within 7 of its entry in each channel. |
| Undo.SavedShape | Big_files/PyDPainter-master/libs/config.py:610-626 | After a save the index is the last place of the list and at most UNDO_INDEX_MAX, with the canvas stored there. Below it are the snapshots up to the old index, shifted down one place when the oldest was dropped; those after the old index are discarded. |
| Undo.SavedValid | Big_files/PyDPainter-master/libs/config.py:605-633 | Saving keeps the history a non-empty list of at most UNDO_INDEX_MAX + 1 snapshots with the index on its last entry, starting from the empty history too. |
| Undo.MovesStay | Big_files/PyDPainter-master/libs/config.py:635-645 | undo and redo keep the index inside the history and move it by one place, except at the ends where it stays. |
| Undo.MovesInverse | Big_files/PyDPainter-master/libs/config.py:635-645 | A redo after an undo that moved restores the index, and so does an undo after a redo that moved. |
| Undo.History.constructor | Big_files/PyDPainter-master/libs/config.py:341-344 | The history starts empty with index -1 and saving not suppressed. |
| Undo.History.SaveUndo | Big_files/PyDPainter-master/libs/config.py:605-626 | A suppressed save only clears the flag; otherwise the canvas is pushed as Saved describes. |
| Undo.History.ClearUndo | Big_files/PyDPainter-master/libs/config.py:628-633 | clear_undo leaves the canvas as the only snapshot at index 0, with the next save suppressed. |
| Undo.History.Redo | Big_files/PyDPainter-master/libs/config.py:635-639 | redo moves the index up one place, clamped to the last snapshot, and shows that snapshot; the list is unchanged. |
| Undo.History.Undo | Big_files/PyDPainter-master/libs/config.py:641-645 | undo moves the index down one place, clamped to 0, and shows that snapshot; the list is unchanged. |
| Input.SnapNear | Big_files/PyDPainter-master/libs/config.py:463-464 | For a positive grid size the snapped coordinate lies on the grid, at most gs // 2 above the input and less than gs - gs // 2 below it. |
| Input.SnapMouseOnGrid | Big_files/PyDPainter-master/libs/config.py:460-466 | With positive grid sizes the grid step never fails. When it applies, both coordinates end on the grid within half a cell of the mouse; otherwise the position passes through. |
| Input.SnapIdempotent | Big_files/PyDPainter-master/libs/config.py:463 | Snapping a snapped coordinate leaves it where it is. |
| Input.SnapNearest | Big_files/PyDPainter-master/libs/config.py:463 | No grid point is closer to the input than the snapped one. |
| Input.StepColorRange | Big_files/PyDPainter-master/libs/config.py:845-853 | ']' and '[' leave the colour a valid index; ']' on the last colour wraps to 0 and '[' on 0 wraps to the last. |
| Input.StepColorInverse | Big_files/PyDPainter-master/libs/config.py:842-853 | ']' then '[', or '[' then ']', gives back the colour. |
| Input.AirbrushStays | Big_files/PyDPainter-master/libs/config.py:824-838 | '+' and '-' keep the airbrush size in [5, 50], and each undoes the other away from the bounds. |
| Input.Painter.constructor | Big_files/PyDPainter-master/libs/config.py:288-319 | The painter starts with colour 1, background 0, 64 colours, airbrush size 10 and a default brush. |
| Input.Painter.NextColor | Big_files/PyDPainter-master/libs/config.py:842-847 | ']' steps the background colour with shift, else the drawing colour, one up modulo the number of colours; nothing else changes. |
| Input.Painter.PrevColor | Big_files/PyDPainter-master/libs/config.py:848-853 | '[' steps the background colour with shift, else the drawing colour, one down modulo the number of colours; nothing else changes. |
| Input.Painter.Plus | Big_files/PyDPainter-master/libs/config.py:824-832 | '+' grows the airbrush, capped at 50, with the airbrush tool, and otherwise resizes the brush one size up through its size setter. |
| Input.Painter.Minus | Big_files/PyDPainter-master/libs/config.py:833-841 | '-' shrinks the airbrush, floored at 5, with the airbrush tool, and otherwise resizes the brush one size down through its size setter. |
| Display.ClosestScale4Fits | Big_files/PyDPainter-master/libs/config.py:124-129 | closest_scale4 gives the largest of maxnum, maxnum // 2 and maxnum // 4 that is not above num, and the quarter when num is below all three. |
| Display.FontCellSizes | Big_files/PyDPainter-master/libs/config.py:218-220 | The font cell is always 8, 16 or 32 pixels each way; a 320x200 canvas gets 8x8 and a 640x400 canvas 16x16. |
| Slots.PayoutTable | slot.py:76-105 | Three of a kind pays 100, 50, 20, 10 or 5 times the bet for $, @, #, & and %. A % on the first reel matched on exactly one other reel pays the bet back, and nothing else pays. |
| Slots.WinsNeedMatch | slot.py:76-105 | A winning spin has a % on the first reel or three equal symbols. |
| Slots.AdminJackpot | slot.py:53-60 | Every spin with the Admin reels is the jackpot. |
| Slots.RoundConservesOver | slot.py:42-105 | A round keeps the bank equal to 10000 per game started plus winnings minus bets, and never negative. |
| Slots.ZeroBetRound | slot.py:33-45 | The zero bet staked after a 'NO' answer's nested game loop is accepted whenever the bank is not negative, and changes no money except the current bet, which becomes 0. |
| Slots.PlayStep | slot.py:27-105 | One more round extends the money by one Round and the spin count by one exactly when its bet is accepted. |
| Slots.PlayConserves | slot.py:27-105 | Any sequence of rounds keeps the bank equal to 10000 per game started plus winnings minus bets, never negative, with at most one spin per round. |
| Slots.KeptPlayingEach | slot.py:27 | The loop played round k only after a bank above 0. |
| Slots.RestartAfterLoss | slot.py:121-140 | When start() begins a new game after the bank is empty, the bank is 10000 again with the totals kept. The bookkeeping counts one more game, and the single-game equation holds only when no game had been played before. |
| Slots.RoundConserves | slot.py:42-105 | A round keeps the bank equal to 10000 plus winnings minus bets and never negative. An accepted bet changes the bank by the win minus the bet; a refused bet changes nothing. |
| Slots.SlotMachine.constructor | slot.py:115-122 | The game starts with 10000 in the bank, nothing won or lost, and the Admin reels exactly for the name "Admin". |
| Slots.SlotMachine.PlaceBet | slot.py:42-45 | A bet is accepted exactly when it is between 0 and the bank; it then leaves the bank, counts as lost and becomes the current bet. |
| Slots.SlotMachine.Settle | slot.py:74-105 | The spin count goes up and the win for the current bet goes to the bank and the winnings. |
| Slots.SlotMachine.PlayRound | slot.py:42-105 | One pass of the game loop changes the money as Round says and counts a spin exactly when the bet is accepted. |
| Slots.SlotMachine.Restart | slot.py:121-123 | start() after a game is over fills the bank to 10000 and leaves the totals, the spin count and the player as they were. |
| Slots.SlotMachine.GameLoop | slot.py:23-105 | The game loop ends with the money that Play gives over the rounds it played and with one spin per accepted bet. It played every round only while the bank was above 0, and it stops early only with an empty bank. The bank stays equal to 10000 per game started plus winnings minus bets. |

## Left out

- Symmetry.SymmCoords: requires that point symmetry with turning makes no rotated copies, because those copies come from a floating-point rotation matrix (Big_files/PyDPainter-master/libs/prim.py:114-142).
- Ilbm.DecodeIlbmBody: covers only surface widths that are a multiple of 16. These are the only widths load_iff creates. For any other width numpy raises a shape error, and that error is not modelled.
- FloodFill.Fill: SOLID mode with symmetry off only. The colour-range fill of the other modes needs the colorrange module, which is not part of this model.
- Spans.Hline: the ink of BRUSH, WRAP and the gradient modes comes from a `shade` parameter. Those modes use floating-point stretching, the arcsine table and random dithering. TINT and PERSPECTIVE draw nothing here, as in the source's hline.
- Gadgets.Gadget.constructor: the value and the text are separate parameters. A missing value is 0 or the empty string, and a missing maxvalue is 0 for gadget types other than sliders and string fields. Python keeps None in both cases (Big_files/PyDPainter-master/libs/gadget.py:284-289), but those gadget types never read them.
- Palette.UniquePalette: palette entries are tuples, so two equal colours always have equal keys. A list entry would print differently and not collide. When the skew table runs out, the error is IndexError.
- Brushes.Brush.constructor: a CUSTOM brush copies its image from a pygame surface. The model keeps the size and handle but not the image.
- ReqParse.Str2Req: models the case `custom=""`, the empty default. The rectangles of caller-chosen characters that become CUSTOM gadgets of the caller's class (Big_files/PyDPainter-master/libs/gadget.py:799-829) are not parsed. The mouse mapper is not modelled. Without a font, Str2Req follows the corrected Requestor (ReqParse.RequestorFonty: 12-pixel lines), while the source raises AttributeError there (see Findings).
- Gadgets.Requestor.ProcessEvent: dragging a requester by its title bar is not modelled. That code moves the screen rectangle and does no gadget logic.
- File I/O: `open`, `seek`, `read` and `write` are left out. The file is a byte sequence, or None when it cannot be read. The chunk reader is written over those bytes.
- pygame and numpy: surfaces, `blit`, `set_palette`, colour keys, `Brush.render_image` and `Brush.draw` are left out. Canvases are 2-D arrays.
- Floating point: Bezier curve stepping, the airbrush and spray brush, gradient bands, `closest_scale` and the aspect-ratio helpers are left out. `int(math.log(len(pal), 2))` in the ILBM writer is not modelled either.
- Interruption and redraw polling: `has_event`, `try_recompose` and `recompose` are left out. The primitives are modelled as running to the end.
- The GUI layer: config.py's event dispatch, `setBIBrush`, the menu requesters and the drawing of gadgets are left out. Only the key arithmetic and the grid snap are modelled.
- The triple-quoted block at Big_files/PyDPainter-master/libs/config.py:905-1525 is a string literal and is not code.
- slot.py: `input`, `time.sleep`, printing and `random.choice` are left out. The bets and the symbols on the reels are parameters. The player's name is taken as it is after `.title()`.
- Slots.SlotMachine.GameLoop: a 'NO' answer (slot.py:33-35) runs a nested game_loop. When that returns, the outer loop stakes a zero bet and spins once more. The model treats the next bet as part of the same loop, so it does not count that extra spin. Slots.ZeroBetRound shows that the spin changes no money. The calls in which start() and game_loop() re-enter themselves are not modelled either. A restart is the separate method Slots.SlotMachine.Restart.
- Slots.Conserved: the single-game equation bank == 10000 + won - lost holds for the first game only. After a restart the model proves the general form with 10000 per game started (Slots.ConservedOver).
- The drawing-mode cycle and the colorrange module are not part of this model.
- Filled polygons and the flood fill are modelled for one copy of the shape. Symmetry applies the same operation to each copy.

## Findings

| source | as written | input that shows it | evidently intended | confidence | as-written member | corrected member |
|---|---|---|---|---|---|---|
| Big_files/PyDPainter-master/libs/prim.py:38-55 | rect_onscreen rejects a rectangle only when it starts right of column w or ends left of column 0, so it is off by one at both edges | Rect(w, 0, 1, 1) and Rect(-1, 0, 1, 1) are accepted, but neither has a pixel on the w by h canvas | accept exactly the rectangles with at least one pixel on the canvas | not executed | Geometry.RectOnscreenEdge | Geometry.RectOnscreenExactIff |
| Big_files/PyDPainter-master/libs/gadget.py:568-574 | Requestor reads the font height from its `font` parameter instead of from the default font it has just chosen | Requestor(..., font=None): `None.ysize` raises AttributeError | use the default font's height when no font is given | not executed | ReqParse.DefaultFontRaises | ReqParse.RequestorFontyAgrees |
