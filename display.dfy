// Font scaling of config.py: closest_scale4 (124-129) and the font cell
// size initialize_surfaces derives from the canvas size (218-220).

module Display {
  import opened Support

  /** closest_scale4: maxnum, half of it or a quarter of it, whichever is
    * the first not above num, and the quarter when none is. */
  function ClosestScale4(maxnum: int, num: int): int
  {
    if num >= maxnum then maxnum
    else if num >= FloorDiv(maxnum, 2) then FloorDiv(maxnum, 2)
    else FloorDiv(maxnum, 4)
  }

  /** For a non-negative maxnum the result is the largest of maxnum,
    * maxnum // 2 and maxnum // 4 that does not exceed num, and the quarter
    * when num is below all three. */
  lemma {:induction false} ClosestScale4Fits(maxnum: int, num: int)
    requires maxnum >= 0
    ensures var r := ClosestScale4(maxnum, num);
            (r == maxnum || r == maxnum / 2 || r == maxnum / 4) &&
            (num >= maxnum / 4 ==> r <= num) &&
            (num < maxnum / 4 ==> r == maxnum / 4) &&
            (maxnum <= num ==> r == maxnum) &&
            (maxnum / 2 <= num ==> maxnum / 2 <= r) &&
            (maxnum / 4 <= num ==> maxnum / 4 <= r)
  {
    FloorDivPositive(maxnum, 2);
    FloorDivPositive(maxnum, 4);
  }

  /** The font cell initialize_surfaces picks for a canvas of w by h pixels:
    * closest_scale4(32, w // 40) by closest_scale4(32, h // 25), before
    * the height is stretched by half. */
  function FontCell(w: int, h: int): (int, int)
  {
    (ClosestScale4(32, FloorDiv(w, 40)), ClosestScale4(32, FloorDiv(h, 25)))
  }

  /** The font cell is always 8, 16 or 32 pixels each way; a low-resolution
    * 320 by 200 canvas gets 8 by 8 and a 640 by 400 canvas 16 by 16. */
  lemma {:induction false} FontCellSizes(w: int, h: int)
    ensures FontCell(w, h).0 in {8, 16, 32} && FontCell(w, h).1 in {8, 16, 32}
    ensures FontCell(320, 200) == (8, 8) && FontCell(640, 400) == (16, 16)
  {
    ClosestScale4Fits(32, FloorDiv(w, 40));
    ClosestScale4Fits(32, FloorDiv(h, 25));
  }
}
