// str2req (gadget.py:683-850): a requester laid out as ASCII art. Buttons
// are bracketed, "~"-separated labels; runs of "-" are horizontal sliders,
// runs of "_" string fields, columns of "|" vertical sliders, and every
// remaining word is a label. Each phase blanks what it has recognised, so
// the later phases do not see it again.

module ReqParse {
  import opened Support
  import opened Geometry
  import opened Gadgets

  /** Python's str.isspace for one character. */
  predicate IsSpace(ch: char)
  {
    var n := ch as int;
    n == 32 || 9 <= n <= 13 || 28 <= n <= 31 || n == 0x85 || n == 0xa0 || n == 0x1680 ||
    0x2000 <= n <= 0x200a || n == 0x2028 || n == 0x2029 || n == 0x202f || n == 0x205f || n == 0x3000
  }

  /** A line that str.strip() empties. */
  predicate IsBlank(s: string)
  {
    forall i | 0 <= i < |s| :: IsSpace(s[i])
  }

  /** str.rstrip(). */
  function RStrip(s: string): (r: string)
    ensures |r| <= |s| && r == s[..|r|]
    ensures |r| > 0 ==> !IsSpace(r[|r| - 1])
    ensures forall i | |r| <= i < |s| :: IsSpace(s[i])
  {
    if |s| > 0 && IsSpace(s[|s| - 1]) then RStrip(s[..|s| - 1]) else s
  }

  function Spaces(n: nat): (r: string)
    ensures |r| == n && forall i | 0 <= i < n :: r[i] == ' '
  {
    seq(n, i => ' ')
  }

  /** Columns a to b of s overwritten with spaces. */
  function Blank(s: string, a: nat, b: nat): string
  {
    seq(|s|, i requires 0 <= i < |s| => if a <= i <= b then ' ' else s[i])
  }

  /** The slices str2req writes blank the columns a to b. */
  lemma BlankSlices(s: string, a: nat, b: nat)
    requires a <= b < |s|
    ensures s[..a] + Spaces(b - a + 1) + s[b + 1..] == Blank(s, a, b)
    ensures Spaces(b + 1) + s[b + 1..] == Blank(s, 0, b)
  {
  }

  /** A class of characters: one character, or all characters but one. */
  datatype Sel = Only(c: char) | Except(c: char)

  predicate Picks(sel: Sel, ch: char)
  {
    if sel.Only? then ch == sel.c else ch != sel.c
  }

  /** str.find from index `from`, for a class of characters: the first
    * index at or after `from` holding a picked character, or -1. */
  function Find(s: string, sel: Sel, from: nat): (r: int)
    ensures r == -1 || (from <= r < |s| && Picks(sel, s[r]))
    decreases |s| - from
  {
    if from >= |s| then -1 else if Picks(sel, s[from]) then from else Find(s, sel, from + 1)
  }

  /** Find skips nothing: no picked character lies between from and what it
    * returns. */
  lemma {:induction false} FindFirst(s: string, sel: Sel, from: nat)
    ensures var r := Find(s, sel, from);
            forall i | from <= i < |s| && (r == -1 || i < r) :: !Picks(sel, s[i])
    decreases |s| - from
  {
    if from < |s| && !Picks(sel, s[from]) {
      FindFirst(s, sel, from + 1);
    }
  }

  /** A run of characters: its first column and its length. */
  datatype Run = Run(start: nat, len: nat)

  /** The end (exclusive) of the run of picked characters from s on. */
  function RunEnd(line: string, sel: Sel, s: nat): (e: nat)
    requires s <= |line|
    ensures s <= e <= |line| && (e == |line| || !Picks(sel, line[e]))
    decreases |line| - s
  {
    if s == |line| || !Picks(sel, line[s]) then s else RunEnd(line, sel, s + 1)
  }

  /** A run measured from inside it ends where it ends. */
  lemma {:induction false} RunEndFrom(line: string, sel: Sel, s: nat, t: nat)
    requires s <= t <= |line| && forall i | s <= i < t :: Picks(sel, line[i])
    ensures RunEnd(line, sel, s) == RunEnd(line, sel, t)
    decreases t - s
  {
    if s < t {
      RunEndFrom(line, sel, s + 1, t);
    }
  }

  /** Every character of the run is picked. */
  lemma {:induction false} RunEndPicks(line: string, sel: Sel, s: nat)
    requires s <= |line|
    ensures forall i | s <= i < RunEnd(line, sel, s) :: Picks(sel, line[i])
    decreases |line| - s
  {
    if s < |line| && Picks(sel, line[s]) {
      RunEndPicks(line, sel, s + 1);
    }
  }

  /** The maximal runs of picked characters in line[k..], left to right. */
  function RunsFrom(line: string, sel: Sel, k: nat): seq<Run>
    requires k <= |line|
    decreases |line| - k
  {
    var s := Find(line, sel, k);
    if s < 0 then []
    else
      var e := RunEnd(line, sel, s);
      [Run(s, e - s)] + RunsFrom(line, sel, e)
  }

  /** The line with every picked character before column k turned into a
    * space. */
  function Erased(line: string, sel: Sel, k: nat): string
  {
    seq(|line|, i requires 0 <= i < |line| => if i < k && Picks(sel, line[i]) then ' ' else line[i])
  }

  predicate InRun(r: Run, i: int)
  {
    r.start <= i < r.start + r.len
  }

  /** r is a block of picked characters of line that cannot be extended on
    * either side. */
  predicate MaximalRun(line: string, sel: Sel, r: Run)
  {
    r.len >= 1 && r.start + r.len <= |line| &&
    (forall i | r.start <= i < r.start + r.len :: Picks(sel, line[i])) &&
    (r.start == 0 || !Picks(sel, line[r.start - 1])) &&
    (r.start + r.len == |line| || !Picks(sel, line[r.start + r.len]))
  }

  /** Every run found is maximal and lies in line[k..]. */
  lemma {:induction false} RunsSound(line: string, sel: Sel, k: nat)
    requires k <= |line| && (k == 0 || k == |line| || !Picks(sel, line[k]))
    ensures forall r | r in RunsFrom(line, sel, k) :: k <= r.start && MaximalRun(line, sel, r)
    decreases |line| - k
  {
    var s := Find(line, sel, k);
    if s >= 0 {
      var e := RunEnd(line, sel, s);
      RunsSound(line, sel, e);
      RunsUnfold(line, sel, k, s, e);
      FindFirst(line, sel, k);
      RunEndPicks(line, sel, s);
    }
  }

  /** The runs are found left to right, with a gap between two of them. */
  lemma {:induction false} RunsOrdered(line: string, sel: Sel, k: nat)
    requires k <= |line|
    ensures var rs := RunsFrom(line, sel, k);
      (forall j | 0 <= j < |rs| :: k <= rs[j].start) &&
      (forall j | 0 <= j < |rs| - 1 :: rs[j].start + rs[j].len < rs[j + 1].start)
    decreases |line| - k
  {
    var s := Find(line, sel, k);
    if s >= 0 {
      var e := RunEnd(line, sel, s);
      RunsOrdered(line, sel, e);
      RunsUnfold(line, sel, k, s, e);
    }
  }

  /** A column from k on holds a picked character exactly when it lies in
    * one of the runs. */
  lemma {:induction false} RunsCover(line: string, sel: Sel, k: nat)
    requires k <= |line|
    ensures var rs := RunsFrom(line, sel, k);
      forall i | k <= i < |line| :: Picks(sel, line[i]) <==> exists j | 0 <= j < |rs| :: InRun(rs[j], i)
    decreases |line| - k
  {
    var s := Find(line, sel, k);
    FindFirst(line, sel, k);
    if s >= 0 {
      var e := RunEnd(line, sel, s);
      RunsCover(line, sel, e);
      RunsOrdered(line, sel, e);
      RunsUnfold(line, sel, k, s, e);
      RunEndPicks(line, sel, s);
      var rs := RunsFrom(line, sel, k);
      var tail := RunsFrom(line, sel, e);
      forall i | k <= i < |line|
        ensures Picks(sel, line[i]) <==> exists j | 0 <= j < |rs| :: InRun(rs[j], i)
      {
        if Picks(sel, line[i]) {
          if i < e {
            assert InRun(rs[0], i);
          } else {
            var j :| 0 <= j < |tail| && InRun(tail[j], i);
            assert InRun(rs[j + 1], i);
          }
        } else if exists j | 0 <= j < |rs| :: InRun(rs[j], i) {
          var j :| 0 <= j < |rs| && InRun(rs[j], i);
          if j > 0 {
            assert InRun(tail[j - 1], i);
          }
        }
      }
    }
  }

  lemma RunsUnfold(line: string, sel: Sel, k: nat, s: nat, e: nat)
    requires k <= |line| && s == Find(line, sel, k) && e == RunEnd(line, sel, s)
    ensures RunsFrom(line, sel, k) == [Run(s, e - s)] + RunsFrom(line, sel, e)
  {
  }

  /** One more run found: the runs so far followed by those still to find
    * are still all the runs. */
  lemma RunsStep(runs: seq<Run>, line: string, sel: Sel, k: nat, s: nat, e: nat)
    requires k <= |line| && s == Find(line, sel, k) && e == RunEnd(line, sel, s)
    requires runs + RunsFrom(line, sel, k) == RunsFrom(line, sel, 0)
    ensures (runs + [Run(s, e - s)]) + RunsFrom(line, sel, e) == RunsFrom(line, sel, 0)
  {
    RunsUnfold(line, sel, k, s, e);
    assert (runs + [Run(s, e - s)]) + RunsFrom(line, sel, e) == runs + ([Run(s, e - s)] + RunsFrom(line, sel, e));
  }

  lemma {:induction false} EraseStep(line: string, sel: Sel, k: nat)
    requires k <= |line| && Find(line, sel, k) >= 0
    ensures var s := Find(line, sel, k);
            var e := RunEnd(line, sel, s);
            s < e && Blank(Erased(line, sel, k), s, e - 1) == Erased(line, sel, e)
  {
    FindFirst(line, sel, k);
    RunEndPicks(line, sel, Find(line, sel, k));
  }

  lemma {:induction false} EraseDone(line: string, sel: Sel, k: nat)
    requires k <= |line| && Find(line, sel, k) < 0
    ensures Erased(line, sel, k) == Erased(line, sel, |line|)
  {
    FindFirst(line, sel, k);
  }

  /** After a phase, no picked character is left in the line and the others
    * are where they were. */
  lemma EraseAll(line: string, c: char)
    ensures var r := Erased(line, Only(c), |line|);
            |r| == |line| && (c != ' ' ==> c !in r) && forall i | 0 <= i < |line| && line[i] != c :: r[i] == line[i]
  {
  }

  /** The horizontal-slider and string-field loops of str2req over one line
    * (gadget.py:741-758, 780-797): each maximal run of c is recorded, and
    * blanked in the line. */
  method EraseRuns(line: string, c: char) returns (runs: seq<Run>, out: string)
    ensures runs == RunsFrom(line, Only(c), 0)
    ensures out == Erased(line, Only(c), |line|)
  {
    out := line;
    runs := [];
    ghost var k: nat := 0;
    var bstart := Find(line, Only(c), 0);
    var bend := bstart + 1;
    while bstart >= 0
      invariant Scanned(line, Only(c), k, runs, out) && bstart == Find(line, Only(c), k) && bend == bstart + 1
      decreases |line| - k
    {
      bend, runs, out := EraseNext(line, c, k, bstart, runs, out);
      k := bend + 1;
      bstart := Find(line, Only(c), bend + 1);
      bend := bstart + 1;
    }
    EraseDone(line, Only(c), k);
  }

  /** The runs of line[..k] have been recorded and blanked in out. */
  ghost predicate Scanned(line: string, sel: Sel, k: nat, runs: seq<Run>, out: string)
  {
    k <= |line| && runs + RunsFrom(line, sel, k) == RunsFrom(line, sel, 0) && out == Erased(line, sel, k)
  }

  /** One pass of the run loop: the run starting at bstart is measured,
    * blanked and recorded; bend is its last column. */
  method EraseNext(line: string, c: char, ghost k: nat, bstart: nat, runs: seq<Run>, out: string)
    returns (bend: nat, runs': seq<Run>, out': string)
    requires Scanned(line, Only(c), k, runs, out) && bstart == Find(line, Only(c), k)
    ensures k <= bstart <= bend < |line| && Scanned(line, Only(c), bend + 1, runs', out')
  {
    bend := ScanRun(line, Only(c), bstart, bstart + 1);
    bend := bend - 1;
    EraseStep(line, Only(c), k);
    out' := BlankRun(out, bstart, bend);
    RunsStep(runs, line, Only(c), k, bstart, bend + 1);
    runs' := runs + [Run(bstart, bend + 1 - bstart)];
  }

  /** The slice assignment that blanks a recognised run in str2req. */
  method BlankRun(s: string, bstart: nat, bend: nat) returns (r: string)
    requires bstart <= bend < |s|
    ensures r == Blank(s, bstart, bend)
  {
    if bstart == 0 {
      r := Spaces(bend - bstart + 1) + s[bend + 1..];
    } else {
      r := s[..bstart] + Spaces(bend - bstart + 1) + s[bend + 1..];
    }
    BlankSlices(s, bstart, bend);
  }

  /** The inner loop of the run phases: from inside a run, the end of it. */
  method ScanRun(line: string, sel: Sel, bstart: nat, from: nat) returns (bend: nat)
    requires bstart <= from <= |line| && forall i | bstart <= i < from :: Picks(sel, line[i])
    ensures bend == RunEnd(line, sel, bstart)
  {
    RunEndFrom(line, sel, bstart, from);
    bend := from;
    while bend < |line| && Picks(sel, line[bend])
      invariant from <= bend <= |line|
      invariant RunEnd(line, sel, bstart) == RunEnd(line, sel, bend)
    {
      bend := bend + 1;
    }
  }

  /** The space-skipping loop of the label phase: in a line that does not
    * end with a space, the next word starts at Find. */
  method SkipSpaces(line: string, from: nat) returns (i: nat)
    requires from < |line| && line[|line| - 1] != ' '
    ensures i == Find(line, Except(' '), from) && from <= i < |line|
  {
    i := from;
    while i < |line| && line[i] == ' '
      invariant from <= i < |line|
      invariant Find(line, Except(' '), from) == Find(line, Except(' '), i)
    {
      i := i + 1;
    }
  }

  /** The label loop of str2req over one line (gadget.py:831-845): the words
    * of the right-stripped line, split at spaces. */
  method Words(raw: string) returns (line: string, words: seq<Run>)
    ensures line == RStrip(raw) && words == RunsFrom(line, Except(' '), 0)
  {
    line := RStrip(raw);
    words := [];
    var tstart := 0;
    while tstart < |line|
      invariant tstart <= |line| && words + RunsFrom(line, Except(' '), tstart) == RunsFrom(line, Except(' '), 0)
      decreases |line| - tstart
    {
      tstart, words := WordNext(line, tstart, words);
    }
  }

  /** One pass of the label loop: the spaces are skipped and the word after
    * them recorded; the next pass starts after it. */
  method WordNext(line: string, tstart: nat, words: seq<Run>) returns (next: nat, words': seq<Run>)
    requires tstart < |line| && line[|line| - 1] != ' '
    requires words + RunsFrom(line, Except(' '), tstart) == RunsFrom(line, Except(' '), 0)
    ensures tstart < next <= |line| && words' + RunsFrom(line, Except(' '), next) == RunsFrom(line, Except(' '), 0)
  {
    var t := SkipSpaces(line, tstart);
    var tend := ScanRun(line, Except(' '), t, t);
    tend := tend - 1;
    RunsStep(words, line, Except(' '), tstart, t, tend + 1);
    words' := words + [Run(t, tend + 1 - t)];
    next := tend + 1;
  }

  // ---- Preparing the lines (gadget.py:684-715) ----

  /** The first line is dropped when it holds nothing but white space. */
  function Trimmed(lines: seq<string>): seq<string>
  {
    if |lines| > 0 && IsBlank(lines[0]) then lines[1..] else lines
  }

  /** The width str2req counts for a line: a closing bracket in the last
    * column does not count. */
  function Width(line: string): nat
  {
    if |line| > 0 && line[|line| - 1] == ']' then |line| - 1 else |line|
  }

  function MaxWidth(lines: seq<string>): nat
  {
    if |lines| == 0 then 0 else Max(MaxWidth(lines[..|lines| - 1]), Width(lines[|lines| - 1]))
  }

  /** MaxWidth is the largest width of a line, and 0 without lines. */
  lemma {:induction false} MaxWidthIsMax(lines: seq<string>)
    ensures forall i | 0 <= i < |lines| :: Width(lines[i]) <= MaxWidth(lines)
    ensures |lines| == 0 ==> MaxWidth(lines) == 0
    ensures |lines| > 0 ==> exists i | 0 <= i < |lines| :: Width(lines[i]) == MaxWidth(lines)
  {
    if |lines| > 0 {
      var init := lines[..|lines| - 1];
      MaxWidthIsMax(init);
      assert forall i | 0 <= i < |init| :: lines[i] == init[i];
      if |init| > 0 && MaxWidth(init) >= Width(lines[|lines| - 1]) {
        var i :| 0 <= i < |init| && Width(init[i]) == MaxWidth(init);
        assert Width(lines[i]) == MaxWidth(lines);
      }
    }
  }

  /** The loop that finds maxlen. */
  method ScanWidths(lines: seq<string>) returns (maxlen: nat)
    ensures maxlen == MaxWidth(lines)
  {
    maxlen := 0;
    var i := 0;
    while i < |lines|
      invariant i <= |lines| && maxlen == MaxWidth(lines[..i])
    {
      var linelen := |lines[i]|;
      if linelen > 0 && lines[i][linelen - 1] == ']' {
        linelen := linelen - 1;
      }
      if linelen > maxlen {
        maxlen := linelen;
      }
      assert lines[..i + 1][..i] == lines[..i];
      i := i + 1;
    }
    assert lines[..i] == lines;
  }

  /** Every line shorter than m is padded with spaces to length m. */
  function Padded(lines: seq<string>, m: nat): seq<string>
  {
    seq(|lines|, i requires 0 <= i < |lines| => if |lines[i]| < m then lines[i] + Spaces(m - |lines[i]|) else lines[i])
  }

  /** Padding keeps every line's text in place, adds only spaces and leaves
    * no line shorter than m. */
  lemma PaddedShape(lines: seq<string>, m: nat)
    ensures |Padded(lines, m)| == |lines|
    ensures forall i | 0 <= i < |lines| ::
              |Padded(lines, m)[i]| == Max(m, |lines[i]|) && Padded(lines, m)[i][..|lines[i]|] == lines[i] &&
              forall j | |lines[i]| <= j < |Padded(lines, m)[i]| :: Padded(lines, m)[i][j] == ' '
  {
  }

  /** The padding loop. */
  method PadLines(lines: seq<string>, maxlen: nat) returns (out: seq<string>)
    ensures out == Padded(lines, maxlen)
  {
    out := lines;
    var lineno := 0;
    while lineno < |out|
      invariant |out| == |lines| && lineno <= |out|
      invariant forall i | 0 <= i < |lines| :: out[i] == if i < lineno then Padded(lines, maxlen)[i] else lines[i]
    {
      if |out[lineno]| < maxlen {
        out := out[lineno := out[lineno] + Spaces(maxlen - |out[lineno]|)];
      }
      lineno := lineno + 1;
    }
  }

  // ---- Fonts ----

  /** The metrics of a pixel font that str2req and Requestor read. */
  datatype Font = Font(xsize: nat, ysize: nat)

  /** int(ysize * 1.5): the line height for a font. */
  function LineHeight(f: Font): nat
  {
    f.ysize * 3 / 2
  }

  /** The character cell str2req lays out in: a column is fontx pixels wide,
    * a line fonty pixels high, and a title pushes everything down by yo. */
  datatype Cell = Cell(fx: nat, fy: nat, yo: nat)

  function CellOf(title: string, font: Option<Font>): (c: Cell)
    ensures font.None? ==> c.fx == 8 && c.fy == 12
    ensures font.Some? ==> c.fx == font.value.xsize && c.fy == LineHeight(font.value)
    ensures c.yo == if title == "" then 0 else c.fy
  {
    var fx := if font.None? then 8 else font.value.xsize;
    var fy := if font.None? then 12 else LineHeight(font.value);
    Cell(fx, fy, if title != "" then fy else 0)
  }

  datatype AttributeError = AttributeError

  /** The line height Requestor.__init__ computes as written
    * (gadget.py:568-574): it reads ysize from the font argument rather
    * than from the font it has just chosen, so a requester made without a
    * font raises. */
  function RequestorFontyAsWritten(font: Option<Font>): Result<nat, AttributeError>
  {
    if font.None? then Err(AttributeError) else Ok(LineHeight(font.value))
  }

  /** The default font of Requestor, PixelFont("jewel32.png", 8), taken to
    * have 8 by 8 pixel characters, as the fallback metrics of str2req
    * assume. */
  const DEFAULT_FONT := Font(8, 8)

  /** The line height Requestor.__init__ evidently intends: that of the font
    * it uses, the default one when none is given. */
  function RequestorFonty(font: Option<Font>): nat
  {
    LineHeight(if font.Some? then font.value else DEFAULT_FONT)
  }

  /** str2req without a font, as gadget.py's own demonstration calls it,
    * lays out with 12-pixel lines but the Requestor it then builds raises. */
  lemma DefaultFontRaises(title: string)
    ensures CellOf(title, None).fy == 12 && RequestorFontyAsWritten(None) == Err(AttributeError)
  {
  }

  /** The corrected line height never fails, agrees with the code as written
    * whenever a font is given, and is the line height str2req lays out with,
    * for every font argument. */
  lemma RequestorFontyAgrees(title: string, font: Option<Font>)
    ensures font.Some? ==> RequestorFontyAsWritten(font) == Ok(RequestorFonty(font))
    ensures RequestorFonty(font) == CellOf(title, font).fy
  {
  }

  // ---- Buttons (gadget.py:720-738) ----

  /** Python's start index for str.find: a negative one counts from the end. */
  function PyStart(start: int, n: nat): nat
  {
    if start >= 0 then start else if start + n >= 0 then start + n else 0
  }

  /** Python's s[a:b] for non-negative bounds. */
  function Slice(s: string, a: nat, b: nat): string
  {
    if a >= b || a >= |s| then [] else s[a..Min(b, |s|)]
  }

  /** A bracketed button group: the columns of its '[' and its ']'. */
  datatype Bracket = Bracket(open: nat, close: nat)

  /** The bracket pairs the button loop visits, left to right: the first
    * '[' with the first ']' of the line, then each next '[' after the last
    * ']' with the first ']' after that '['. A ']' before the first '['
    * ends the loop at once. */
  function Pairs(line: string): seq<Bracket>
  {
    PairsAt(line, Find(line, Only('['), 0), Find(line, Only(']'), 0))
  }

  /** The pairs the loop visits from the state (bstart, bend) on. */
  function PairsAt(line: string, bstart: int, bend: int): seq<Bracket>
    requires bstart < |line| && bend < |line|
    decreases if bstart >= 0 then |line| - bstart else 0, 0
  {
    if bend > bstart && bstart >= 0 && bend >= 0 then [Bracket(bstart, bend)] + PairsAfter(line, bend) else []
  }

  /** The pairs the loop visits after a ']' at column bend. When no '['
    * is left, bend is searched for from Python's index -1, whatever it
    * finds. */
  function PairsAfter(line: string, bend: nat): seq<Bracket>
    requires bend < |line|
    decreases |line| - bend, 1
  {
    var s := Find(line, Only('['), bend);
    PairsAt(line, s, Find(line, Only(']'), PyStart(s, |line|)))
  }

  /** Each pair runs from a '[' to the first ']' after it, and the pairs lie
    * left to right without overlapping. */
  lemma {:induction false} PairsSound(line: string, bstart: int, bend: int)
    requires bstart < |line| && bend < |line|
    requires bstart >= 0 ==> line[bstart] == '['
    requires bend > bstart && bstart >= 0 ==> bend == Find(line, Only(']'), bstart)
    ensures var ps := PairsAt(line, bstart, bend);
      (forall j | 0 <= j < |ps| ::
         ps[j].open < ps[j].close < |line| && line[ps[j].open] == '[' && line[ps[j].close] == ']' &&
         forall i | ps[j].open <= i < ps[j].close :: line[i] != ']') &&
      (forall j | 0 <= j < |ps| - 1 :: ps[j].close < ps[j + 1].open) &&
      (|ps| > 0 ==> ps[0].open == bstart)
    decreases if bstart >= 0 then |line| - bstart else 0
  {
    if bend > bstart && bstart >= 0 && bend >= 0 {
      FindFirst(line, Only(']'), bstart);
      var s := Find(line, Only('['), bend);
      var e := Find(line, Only(']'), PyStart(s, |line|));
      if s >= 0 {
        assert s > bend by {
          assert line[bend] == ']';
        }
      }
      PairsSound(line, s, e);
      assert PairsAt(line, bstart, bend) == [Bracket(bstart, bend)] + PairsAt(line, s, e);
    }
  }

  /** The first ']' of a line is the first after its first '[' when there
    * is one past that '['. */
  lemma PairsStart(line: string)
    ensures var s := Find(line, Only('['), 0);
            var e := Find(line, Only(']'), 0);
            e > s && s >= 0 ==> e == Find(line, Only(']'), s)
  {
    var s := Find(line, Only('['), 0);
    FindFirst(line, Only(']'), 0);
    if s >= 0 {
      FindFirst(line, Only(']'), s);
    }
  }

  // ---- Splitting a group at '~' ----

  /** str.split(c): the pieces between the separators, at least one. */
  function Split(s: string, c: char): (ps: seq<string>)
    ensures |ps| >= 1
  {
    if |s| == 0 then [""]
    else
      var rest := Split(s[1..], c);
      if s[0] == c then [""] + rest else [[s[0]] + rest[0]] + rest[1..]
  }

  /** c.join(ps). */
  function Join(ps: seq<string>, c: char): string
    requires |ps| >= 1
  {
    if |ps| == 1 then ps[0] else ps[0] + [c] + Join(ps[1..], c)
  }

  /** The piece holds no separator. */
  predicate NoSep(p: string, c: char)
  {
    forall k | 0 <= k < |p| :: p[k] != c
  }

  lemma JoinPrepend(x: string, ps: seq<string>, c: char)
    requires |ps| >= 1
    ensures Join([x + ps[0]] + ps[1..], c) == x + Join(ps, c)
  {
    var qs := [x + ps[0]] + ps[1..];
    if |ps| > 1 {
      assert qs[1..] == ps[1..];
    }
  }

  /** Splitting and joining again gives the text back. */
  lemma {:induction false} SplitJoin(s: string, c: char)
    ensures Join(Split(s, c), c) == s
    decreases |s|
  {
    if |s| > 0 {
      var rest := Split(s[1..], c);
      SplitJoin(s[1..], c);
      if s[0] == c {
        assert ([""] + rest)[1..] == rest;
        assert s == [c] + s[1..];
      } else {
        JoinPrepend([s[0]], rest, c);
        assert s == [s[0]] + s[1..];
      }
    }
  }

  /** No piece of a split holds the separator. */
  lemma {:induction false} SplitPieces(s: string, c: char)
    ensures forall j | 0 <= j < |Split(s, c)| :: NoSep(Split(s, c)[j], c)
    decreases |s|
  {
    if |s| > 0 {
      var rest := Split(s[1..], c);
      SplitPieces(s[1..], c);
      var ps := Split(s, c);
      if s[0] == c {
        forall j | 1 <= j < |ps|
          ensures NoSep(ps[j], c)
        {
          assert ps[j] == rest[j - 1];
        }
      } else {
        forall j | 0 <= j < |ps|
          ensures NoSep(ps[j], c)
        {
          if j == 0 {
            assert ps[0] == [s[0]] + rest[0];
          } else {
            assert ps[j] == rest[j];
          }
        }
      }
    }
  }

  lemma {:induction false} SplitAfter(a: string, t: string, c: char)
    requires NoSep(a, c)
    ensures Split(a + [c] + t, c) == [a] + Split(t, c)
    decreases |a|
  {
    var s := a + [c] + t;
    if |a| == 0 {
      assert s[1..] == t;
    } else {
      assert s[1..] == a[1..] + [c] + t;
      SplitAfter(a[1..], t, c);
      assert [a[0]] + a[1..] == a;
    }
  }

  lemma {:induction false} SplitNone(a: string, c: char)
    requires NoSep(a, c)
    ensures Split(a, c) == [a]
    decreases |a|
  {
    if |a| > 0 {
      SplitNone(a[1..], c);
      assert [a[0]] + a[1..] == a;
    }
  }

  /** Joining pieces free of the separator and splitting again gives the
    * pieces back. */
  lemma {:induction false} JoinSplit(ps: seq<string>, c: char)
    requires |ps| >= 1 && forall j | 0 <= j < |ps| :: NoSep(ps[j], c)
    ensures Split(Join(ps, c), c) == ps
    decreases |ps|
  {
    if |ps| == 1 {
      SplitNone(ps[0], c);
    } else {
      JoinSplit(ps[1..], c);
      SplitAfter(ps[0], Join(ps[1..], c), c);
      assert [ps[0]] + ps[1..] == ps;
    }
  }

  // ---- Gadget specifications ----

  /** A gadget str2req found: its type and label, its top left character
    * cell (col, row), its width w in columns and height h in lines, and
    * the maxvalue it passes, if any. */
  datatype Spec = Spec(kind: int, caption: string, col: nat, row: nat, w: nat, h: nat, maxvalue: Option<int>)

  /** The pixel rectangle str2req gives the gadget: w characters wide and h
    * lines high less one pixel, below the title line of height cell.yo. */
  function SpecRect(sp: Spec, cell: Cell): Rect
  {
    Rect(sp.col * cell.fx, cell.yo + sp.row * cell.fy, sp.w * cell.fx, sp.h * cell.fy - 1)
  }

  /** The id str2req gives every gadget it finds: its column and row. */
  function SpecId(sp: Spec): string
  {
    GadgetId(sp.col, sp.row)
  }

  /** A button label s at (col, row): one column wider than the label. */
  function ButtonSpec(s: string, col: nat, row: nat): Spec
  {
    Spec(BOOL, s, col, row, |s| + 1, 1, None)
  }

  /** The columns the buttons of a group take: each label's length plus one. */
  function Columns(ps: seq<string>): nat
  {
    if |ps| == 0 then 0 else Columns(ps[..|ps| - 1]) + |ps[|ps| - 1]| + 1
  }

  /** The buttons of a group whose first button starts at column col: the
    * j-th carries the j-th label and starts where the labels before it
    * end. */
  function Group(ps: seq<string>, col: nat, row: nat): seq<Spec>
  {
    seq(|ps|, j requires 0 <= j < |ps| => ButtonSpec(ps[j], col + Columns(ps[..j]), row))
  }

  lemma GroupSnoc(ps: seq<string>, i: nat, col: nat, row: nat)
    requires i < |ps|
    ensures Group(ps[..i + 1], col, row) == Group(ps[..i], col, row) + [ButtonSpec(ps[i], col + Columns(ps[..i]), row)]
  {
    var a, b := ps[..i + 1], ps[..i];
    var lhs := Group(a, col, row);
    var rhs := Group(b, col, row) + [ButtonSpec(ps[i], col + Columns(b), row)];
    assert |lhs| == |rhs|;
    forall j | 0 <= j < |lhs|
      ensures lhs[j] == rhs[j]
    {
      assert a[..j] == ps[..j];
      if j < i {
        assert b[..j] == ps[..j];
      }
    }
  }

  lemma ColumnsPrefix(ps: seq<string>, i: nat)
    requires i < |ps|
    ensures Columns(ps[..i + 1]) == Columns(ps[..i]) + |ps[i]| + 1
  {
    assert ps[..i + 1][..i] == ps[..i];
  }

  lemma {:induction false} ColumnsCons(x: string, ps: seq<string>)
    ensures Columns([x] + ps) == |x| + 1 + Columns(ps)
    decreases |ps|
  {
    if |ps| > 0 {
      var qs := [x] + ps;
      assert qs[..|qs| - 1] == [x] + ps[..|ps| - 1];
      ColumnsCons(x, ps[..|ps| - 1]);
    }
  }

  /** A group takes one column more than its text: the labels and the '~'
    * between them, and the '[' before them. */
  lemma {:induction false} ColumnsJoin(ps: seq<string>, c: char)
    requires |ps| >= 1
    ensures Columns(ps) == |Join(ps, c)| + 1
    decreases |ps|
  {
    if |ps| == 1 {
      assert ps[..0] == [];
    } else {
      ColumnsJoin(ps[1..], c);
      ColumnsCons(ps[0], ps[1..]);
      assert [ps[0]] + ps[1..] == ps;
    }
  }

  /** The buttons of a group made from a bracket's text tile the cells from
    * the '[' (column col) to just before the ']': the j-th button is
    * |ps[j]| + 1 columns wide and starts Columns(ps[..j]) columns after
    * col, so the first starts at the '[', each next one where the one
    * before ends, and together they take |text| + 1 columns. Their labels
    * hold no '~' and, joined with '~', give the text back. */
  lemma GroupTiles(text: string, ps: seq<string>)
    requires ps == Split(text, '~')
    ensures Join(ps, '~') == text && forall j | 0 <= j < |ps| :: NoSep(ps[j], '~')
    ensures Columns(ps[..0]) == 0 && Columns(ps) == |text| + 1
    ensures forall i, j | 0 <= i < j < |ps| && j == i + 1 :: Columns(ps[..j]) == Columns(ps[..i]) + |ps[i]| + 1
  {
    SplitJoin(text, '~');
    SplitPieces(text, '~');
    ColumnsJoin(ps, '~');
    assert ps[..0] == [];
    forall i, j | 0 <= i < j < |ps| && j == i + 1
      ensures Columns(ps[..j]) == Columns(ps[..i]) + |ps[i]| + 1
    {
      ColumnsPrefix(ps, i);
    }
  }

  /** The button loop over the labels of one group (gadget.py:728-732). */
  method AddGroup(line: string, row: nat, bstart: nat, bend: nat) returns (group: seq<Spec>)
    requires bstart < bend <= |line|
    ensures group == Group(Split(Slice(line, bstart + 1, bend), '~'), bstart, row)
  {
    var text := line[bstart + 1..bend];
    var pieces := Split(text, '~');
    group := [];
    var glen := 0;
    var i := 0;
    while i < |pieces|
      invariant i <= |pieces| && group == Group(pieces[..i], bstart, row) && glen == Columns(pieces[..i])
    {
      var s := pieces[i];
      group := group + [ButtonSpec(s, bstart + glen, row)];
      glen := glen + |s| + 1;
      GroupSnoc(pieces, i, bstart, row);
      assert pieces[..i + 1][..i] == pieces[..i];
      i := i + 1;
    }
    assert pieces[..i] == pieces;
  }

  /** The buttons of the given groups of a line. */
  function LineButtons(line: string, ps: seq<Bracket>, row: nat): seq<Spec>
  {
    if |ps| == 0 then []
    else
      var b := ps[|ps| - 1];
      LineButtons(line, ps[..|ps| - 1], row) + Group(Split(Slice(line, b.open + 1, b.close), '~'), b.open, row)
  }

  /** The line with the given groups, brackets included, blanked. */
  function BlankAll(line: string, ps: seq<Bracket>): string
  {
    if |ps| == 0 then line else Blank(BlankAll(line, ps[..|ps| - 1]), ps[|ps| - 1].open, ps[|ps| - 1].close)
  }

  lemma {:induction false} BlankAllAt(line: string, ps: seq<Bracket>)
    ensures var r := BlankAll(line, ps);
            |r| == |line| &&
            forall i | 0 <= i < |line| :: r[i] == if exists j | 0 <= j < |ps| :: ps[j].open <= i <= ps[j].close then ' ' else line[i]
    decreases |ps|
  {
    if |ps| > 0 {
      var init := ps[..|ps| - 1];
      BlankAllAt(line, init);
      assert forall j | 0 <= j < |init| :: init[j] == ps[j];
    }
  }

  /** The button loop of str2req over one line (gadget.py:721-738). */
  method ButtonLine(line: string, row: nat) returns (specs: seq<Spec>, out: string)
    ensures specs == LineButtons(line, Pairs(line), row)
    ensures out == BlankAll(line, Pairs(line))
  {
    var bstart := Find(line, Only('['), 0);
    var bend := Find(line, Only(']'), 0);
    ghost var done: seq<Bracket> := [];
    specs, out := [], line;
    while bend > bstart && bstart >= 0 && bend >= 0
      invariant bstart < |line| && bend < |line| && |out| == |line|
      invariant done + PairsAt(line, bstart, bend) == Pairs(line)
      invariant specs == LineButtons(line, done, row) && out == BlankAll(line, done)
      decreases if bstart >= 0 then |line| - bstart else 0
    {
      var group := AddGroup(line, row, bstart, bend);
      specs := specs + group;
      out := BlankRun(out, bstart, bend);
      PairsNext(line, done, bstart, bend);
      done := done + [Bracket(bstart, bend)];
      bstart := Find(line, Only('['), bend);
      bend := Find(line, Only(']'), PyStart(bstart, |line|));
    }
    assert done == Pairs(line);
  }

  lemma PairsNext(line: string, done: seq<Bracket>, bstart: nat, bend: nat)
    requires bstart < bend < |line| && done + PairsAt(line, bstart, bend) == Pairs(line)
    ensures var s := Find(line, Only('['), bend);
            (done + [Bracket(bstart, bend)]) + PairsAt(line, s, Find(line, Only(']'), PyStart(s, |line|))) == Pairs(line)
  {
    var s := Find(line, Only('['), bend);
    var rest := PairsAt(line, s, Find(line, Only(']'), PyStart(s, |line|)));
    assert PairsAt(line, bstart, bend) == [Bracket(bstart, bend)] + rest;
    assert (done + [Bracket(bstart, bend)]) + rest == done + ([Bracket(bstart, bend)] + rest);
  }

  // ---- Sliders, string fields and labels (gadget.py:740-797, 831-845) ----

  /** A run of k '-' is a horizontal slider with maxvalue 2k. */
  function SliderSpec(r: Run, row: nat): Spec
  {
    Spec(PROP, "-", r.start, row, r.len, 1, Some(r.len * 2))
  }

  /** A run of k '_' is a string field with maxvalue k - 1 (labelled "-"
    * too). */
  function FieldSpec(r: Run, row: nat): Spec
  {
    Spec(STRING, "-", r.start, row, r.len, 1, Some(r.len - 1))
  }

  /** A word left over is a label showing it. */
  function LabelSpec(line: string, r: Run, row: nat): Spec
  {
    Spec(LABEL, Slice(line, r.start, r.start + r.len), r.start, row, r.len, 1, None)
  }

  /** The sliders phase finds one PROP gadget per maximal run of '-' in a
    * line, as wide as the run and with maxvalue twice its length; the
    * string-field phase one STRING gadget per maximal run of '_', with
    * maxvalue one less than its length. */
  lemma RunSpecs(line: string, row: nat)
    ensures |LineSpecs(Sliders, line, row)| == |RunsFrom(line, Only('-'), 0)|
    ensures forall sp | sp in LineSpecs(Sliders, line, row) ::
              sp.kind == PROP && sp.row == row && sp.h == 1 && sp.maxvalue == Some(2 * sp.w) &&
              MaximalRun(line, Only('-'), Run(sp.col, sp.w))
    ensures |LineSpecs(Fields, line, row)| == |RunsFrom(line, Only('_'), 0)|
    ensures forall sp | sp in LineSpecs(Fields, line, row) ::
              sp.kind == STRING && sp.row == row && sp.h == 1 && sp.maxvalue == Some(sp.w - 1) &&
              MaximalRun(line, Only('_'), Run(sp.col, sp.w))
  {
    RunsSound(line, Only('-'), 0);
    RunsSound(line, Only('_'), 0);
  }

  /** The row-by-row phases of str2req. */
  datatype Phase = Buttons | Sliders | Fields | Labels

  /** The gadgets a phase finds in one line. */
  function LineSpecs(ph: Phase, line: string, row: nat): seq<Spec>
  {
    match ph
    case Buttons => LineButtons(line, Pairs(line), row)
    case Sliders =>
      var rs := RunsFrom(line, Only('-'), 0);
      seq(|rs|, j requires 0 <= j < |rs| => SliderSpec(rs[j], row))
    case Fields =>
      var rs := RunsFrom(line, Only('_'), 0);
      seq(|rs|, j requires 0 <= j < |rs| => FieldSpec(rs[j], row))
    case Labels =>
      var t := RStrip(line);
      var ws := RunsFrom(t, Except(' '), 0);
      seq(|ws|, j requires 0 <= j < |ws| => LabelSpec(t, ws[j], row))
  }

  /** What a phase leaves of a line: what it recognised is blanked; the
    * label phase changes nothing. */
  function LineAfter(ph: Phase, line: string): string
  {
    match ph
    case Buttons => BlankAll(line, Pairs(line))
    case Sliders => Erased(line, Only('-'), |line|)
    case Fields => Erased(line, Only('_'), |line|)
    case Labels => line
  }

  /** The gadgets a phase finds, line by line. */
  function PhaseSpecs(ph: Phase, lines: seq<string>): seq<Spec>
  {
    if |lines| == 0 then []
    else PhaseSpecs(ph, lines[..|lines| - 1]) + LineSpecs(ph, lines[|lines| - 1], |lines| - 1)
  }

  function PhaseAfter(ph: Phase, lines: seq<string>): seq<string>
  {
    seq(|lines|, i requires 0 <= i < |lines| => LineAfter(ph, lines[i]))
  }

  /** One of the row loops of str2req. */
  method RunPhase(ph: Phase, lines: seq<string>) returns (specs: seq<Spec>, out: seq<string>)
    ensures specs == PhaseSpecs(ph, lines) && out == PhaseAfter(ph, lines)
  {
    specs, out := [], lines;
    var lineno := 0;
    while lineno < |lines|
      invariant lineno <= |lines| && PhaseDone(ph, lines, lineno, specs, out)
    {
      specs, out := PhaseStep(ph, lines, lineno, specs, out);
      lineno := lineno + 1;
    }
    assert lines[..lineno] == lines;
  }

  /** The lines before lineno have been through the phase, the others not
    * yet. */
  ghost predicate PhaseDone(ph: Phase, lines: seq<string>, lineno: nat, specs: seq<Spec>, out: seq<string>)
  {
    lineno <= |lines| && |out| == |lines| && specs == PhaseSpecs(ph, lines[..lineno]) &&
    forall i | 0 <= i < |lines| :: out[i] == if i < lineno then LineAfter(ph, lines[i]) else lines[i]
  }

  method PhaseStep(ph: Phase, lines: seq<string>, lineno: nat, specs: seq<Spec>, out: seq<string>)
    returns (specs': seq<Spec>, out': seq<string>)
    requires lineno < |lines| && PhaseDone(ph, lines, lineno, specs, out)
    ensures PhaseDone(ph, lines, lineno + 1, specs', out')
  {
    var found, line := PhaseLine(ph, out[lineno], lineno);
    specs' := specs + found;
    out' := out[lineno := line];
    assert lines[..lineno + 1][..lineno] == lines[..lineno];
  }

  /** The body of a row loop for one line. */
  method PhaseLine(ph: Phase, line: string, row: nat) returns (specs: seq<Spec>, out: string)
    ensures specs == LineSpecs(ph, line, row) && out == LineAfter(ph, line)
  {
    match ph
    case Buttons =>
      specs, out := ButtonLine(line, row);
    case Sliders =>
      var rs;
      rs, out := EraseRuns(line, '-');
      specs := seq(|rs|, j requires 0 <= j < |rs| => SliderSpec(rs[j], row));
    case Fields =>
      var rs;
      rs, out := EraseRuns(line, '_');
      specs := seq(|rs|, j requires 0 <= j < |rs| => FieldSpec(rs[j], row));
    case Labels =>
      var t, ws := Words(line);
      specs := seq(|ws|, j requires 0 <= j < |ws| => LabelSpec(t, ws[j], row));
      out := line;
  }

  // ---- Vertical sliders (gadget.py:760-777) ----

  /** Row r of the lines holds a '|' in column c. */
  predicate Bar(lines: seq<string>, r: int, c: nat)
  {
    0 <= r < |lines| && c < |lines[r]| && lines[r][c] == '|'
  }

  /** A column of '|' starts at (r, c): there is none just above. */
  predicate IsTop(lines: seq<string>, r: nat, c: nat)
  {
    Bar(lines, r, c) && (r == 0 || !Bar(lines, r - 1, c))
  }

  /** The top row of the column of '|' through (r, c). */
  function Top(lines: seq<string>, r: nat, c: nat): (t: nat)
    ensures t <= r
  {
    if r > 0 && Bar(lines, r - 1, c) then Top(lines, r - 1, c) else r
  }

  /** The number of '|' from (r, c) down. */
  function Down(lines: seq<string>, r: nat, c: nat): nat
    decreases |lines| - r
  {
    if Bar(lines, r, c) then 1 + Down(lines, r + 1, c) else 0
  }

  /** The columns, from c on, where a column of '|' starts in row r. */
  function TopCols(lines: seq<string>, r: nat, c: nat): seq<nat>
    requires r < |lines|
    decreases |lines[r]| - c
  {
    if c >= |lines[r]| then [] else (if IsTop(lines, r, c) then [c] else []) + TopCols(lines, r, c + 1)
  }

  /** A column of k '|' is a vertical slider with maxvalue 2k, one column
    * wide and k lines high. */
  function VSpec(col: nat, top: nat, k: nat): Spec
  {
    Spec(PROP_VERT, "|", col, top, 1, k, Some(k * 2))
  }

  function RowVSpecs(lines: seq<string>, r: nat, cols: seq<nat>): seq<Spec>
  {
    seq(|cols|, j requires 0 <= j < |cols| => VSpec(cols[j], r, Down(lines, r, cols[j])))
  }

  /** The vertical sliders whose top lies in the first n rows, ordered by
    * their top row and then by column. */
  function VSpecs(lines: seq<string>, n: nat): seq<Spec>
    requires n <= |lines|
  {
    if n == 0 then [] else VSpecs(lines, n - 1) + RowVSpecs(lines, n - 1, TopCols(lines, n - 1, 0))
  }

  /** The lines with every '|' blanked. */
  function NoBars(lines: seq<string>): seq<string>
  {
    seq(|lines|, i requires 0 <= i < |lines| =>
      seq(|lines[i]|, j requires 0 <= j < |lines[i]| => if lines[i][j] == '|' then ' ' else lines[i][j]))
  }

  /** Every line is at least m long and holds no '|' from column m on: the
    * shape the padding and the earlier phases leave. */
  predicate Shape(lines: seq<string>, m: nat)
  {
    forall i | 0 <= i < |lines| :: |lines[i]| >= m && forall j | m <= j < |lines[i]| :: lines[i][j] != '|'
  }

  /** The '|' at (i, j) has been blanked when the vertical loop is at row r,
    * column c and, within that column, row lend: its column starts in an
    * earlier row, or in row r left of c, or it is the top part of the
    * column at c. */
  predicate Gone(lines: seq<string>, i: nat, j: nat, r: nat, c: nat, lend: nat)
  {
    var t := Top(lines, i, j);
    t < r || (t == r && (j < c || (j == c && i < lend)))
  }

  /** cur is the lines with exactly the Gone bars blanked. */
  ghost predicate Cleared(lines: seq<string>, cur: seq<string>, r: nat, c: nat, lend: nat)
  {
    |cur| == |lines| && (forall i | 0 <= i < |lines| :: |cur[i]| == |lines[i]|) &&
    forall i, j | 0 <= i < |lines| && 0 <= j < |lines[i]| ::
      cur[i][j] == if lines[i][j] == '|' && Gone(lines, i, j, r, c, lend) then ' ' else lines[i][j]
  }

  /** Every '|' belongs to a column that starts at its Top. */
  lemma {:induction false} TopIsTop(lines: seq<string>, i: nat, j: nat)
    requires Bar(lines, i, j)
    ensures IsTop(lines, Top(lines, i, j), j)
  {
    if i > 0 && Bar(lines, i - 1, j) {
      TopIsTop(lines, i - 1, j);
    }
  }

  /** The column from (t, j) down is Down(lines, t, j) bars long. */
  lemma {:induction false} DownAt(lines: seq<string>, t: nat, j: nat)
    ensures forall k | t <= k < t + Down(lines, t, j) :: Bar(lines, k, j)
    ensures !Bar(lines, t + Down(lines, t, j), j)
    decreases |lines| - t
  {
    if Bar(lines, t, j) {
      DownAt(lines, t + 1, j);
    }
  }

  /** The bars whose column starts at (t, j) are the Down(lines, t, j) rows
    * from t on. */
  lemma {:induction false} TopDown(lines: seq<string>, t: nat, j: nat, i: nat)
    requires IsTop(lines, t, j) && t <= i
    ensures Bar(lines, i, j) && Top(lines, i, j) == t <==> i < t + Down(lines, t, j)
    decreases i - t
  {
    DownAt(lines, t, j);
    if i > t {
      TopDown(lines, t, j, i - 1);
    }
  }

  /** Nothing is blanked before the loop starts. */
  lemma ClearedStart(lines: seq<string>)
    ensures Cleared(lines, lines, 0, 0, 0)
  {
  }

  /** When the loop reaches row r, the '|' left in it are the tops. */
  lemma RowTops(lines: seq<string>, cur: seq<string>, r: nat)
    requires r < |lines| && Cleared(lines, cur, r, 0, 0)
    ensures |cur[r]| == |lines[r]| && forall j | 0 <= j < |cur[r]| :: cur[r][j] == '|' <==> IsTop(lines, r, j)
  {
    forall j | 0 <= j < |cur[r]|
      ensures cur[r][j] == '|' <==> IsTop(lines, r, j)
    {
      if Bar(lines, r, j) {
        TopIsTop(lines, r, j);
      }
    }
  }

  /** Searching the row for '|' visits the tops, left to right. */
  lemma {:induction false} TopColsFind(lines: seq<string>, line: string, r: nat, c: nat)
    requires r < |lines| && |line| == |lines[r]|
    requires forall j | 0 <= j < |line| :: line[j] == '|' <==> IsTop(lines, r, j)
    ensures var f := Find(line, Only('|'), c);
            TopCols(lines, r, c) == if f < 0 then [] else [f] + TopCols(lines, r, f + 1)
    decreases |line| - c
  {
    if c >= |line| {
      assert Find(line, Only('|'), c) == -1;
    } else if line[c] == '|' {
      assert Find(line, Only('|'), c) == c;
      assert TopCols(lines, r, c) == [c] + TopCols(lines, r, c + 1);
    } else {
      assert Find(line, Only('|'), c) == Find(line, Only('|'), c + 1);
      assert TopCols(lines, r, c) == TopCols(lines, r, c + 1);
      TopColsFind(lines, line, r, c + 1);
    }
  }

  /** Columns without a top may be passed over. */
  lemma ClearedSkip(lines: seq<string>, cur: seq<string>, r: nat, c: nat, c': nat)
    requires r < |lines| && c <= c' && Cleared(lines, cur, r, c, 0)
    requires forall j | c <= j < c' :: !IsTop(lines, r, j)
    ensures Cleared(lines, cur, r, c', 0)
  {
    forall i, j | 0 <= i < |lines| && 0 <= j < |lines[i]| && lines[i][j] == '|'
      ensures Gone(lines, i, j, r, c, 0) == Gone(lines, i, j, r, c', 0)
    {
      TopIsTop(lines, i, j);
    }
  }

  /** A column blanked to its foot is done. */
  lemma ColumnDone(lines: seq<string>, cur: seq<string>, r: nat, col: nat)
    requires IsTop(lines, r, col) && Cleared(lines, cur, r, col, r + Down(lines, r, col))
    ensures Cleared(lines, cur, r, col + 1, 0)
  {
    forall i | r <= i < |lines| && col < |lines[i]| && lines[i][col] == '|'
      ensures Gone(lines, i, col, r, col, r + Down(lines, r, col)) == Gone(lines, i, col, r, col + 1, 0)
    {
      TopDown(lines, r, col, i);
    }
  }

  /** A row whose tops are all done is done. */
  lemma RowDone(lines: seq<string>, cur: seq<string>, r: nat)
    requires r < |lines| && Cleared(lines, cur, r, |lines[r]|, 0)
    ensures Cleared(lines, cur, r + 1, 0, 0)
  {
    forall i, j | 0 <= i < |lines| && 0 <= j < |lines[i]| && lines[i][j] == '|'
      ensures Gone(lines, i, j, r, |lines[r]|, 0) == Gone(lines, i, j, r + 1, 0, 0)
    {
      TopIsTop(lines, i, j);
    }
  }

  /** After the last row every '|' is blanked. */
  lemma AllCleared(lines: seq<string>, cur: seq<string>)
    requires Cleared(lines, cur, |lines|, 0, 0)
    ensures cur == NoBars(lines)
  {
    var nb := NoBars(lines);
    forall i | 0 <= i < |lines|
      ensures cur[i] == nb[i]
    {
    }
  }

  /** The vertical loop of str2req (gadget.py:760-777). */
  method VertPhase(lines: seq<string>, m: nat) returns (specs: seq<Spec>, out: seq<string>)
    requires Shape(lines, m)
    ensures specs == VSpecs(lines, |lines|) && out == NoBars(lines)
  {
    specs, out := [], lines;
    ClearedStart(lines);
    var lineno := 0;
    while lineno < |lines|
      invariant lineno <= |lines| && Cleared(lines, out, lineno, 0, 0) && specs == VSpecs(lines, lineno)
    {
      var found;
      found, out := VertRow(lines, m, lineno, out);
      specs := specs + found;
      lineno := lineno + 1;
    }
    AllCleared(lines, out);
  }

  /** The vertical loop over the tops of one row. */
  method VertRow(lines: seq<string>, m: nat, lineno: nat, cur: seq<string>) returns (found: seq<Spec>, cur': seq<string>)
    requires Shape(lines, m) && lineno < |lines| && Cleared(lines, cur, lineno, 0, 0)
    ensures found == RowVSpecs(lines, lineno, TopCols(lines, lineno, 0)) && Cleared(lines, cur', lineno + 1, 0, 0)
  {
    var line := cur[lineno];
    RowTops(lines, cur, lineno);
    cur' := cur;
    found := [];
    ghost var done: seq<nat> := [];
    ghost var c: nat := 0;
    var col := Find(line, Only('|'), 0);
    while col >= 0
      invariant c <= |line| && col == Find(line, Only('|'), c) && Cleared(lines, cur', lineno, c, 0)
      invariant done + TopCols(lines, lineno, c) == TopCols(lines, lineno, 0)
      invariant found == RowVSpecs(lines, lineno, done)
      decreases |line| - c
    {
      FindFirst(line, Only('|'), c);
      ClearedSkip(lines, cur', lineno, c, col);
      TopColsFind(lines, line, lineno, c);
      var k;
      cur', k := VertColumn(lines, m, lineno, col, cur');
      found := found + [VSpec(col, lineno, k)];
      assert done + TopCols(lines, lineno, c) == (done + [col]) + TopCols(lines, lineno, col + 1);
      done := done + [col];
      c := col + 1;
      col := Find(line, Only('|'), col + 1);
    }
    FindFirst(line, Only('|'), c);
    ClearedSkip(lines, cur', lineno, c, |lines[lineno]|);
    TopColsFind(lines, line, lineno, c);
    assert done == TopCols(lines, lineno, 0);
    RowDone(lines, cur', lineno);
  }

  /** The loop down one column of '|' (gadget.py:765-774): every bar of the
    * column is blanked and counted. */
  method VertColumn(lines: seq<string>, m: nat, lstart: nat, col: nat, cur: seq<string>) returns (cur': seq<string>, k: nat)
    requires Shape(lines, m) && IsTop(lines, lstart, col) && Cleared(lines, cur, lstart, col, 0)
    ensures k == Down(lines, lstart, col) && Cleared(lines, cur', lstart, col + 1, 0)
  {
    DownAt(lines, lstart, col);
    cur' := cur;
    var lend := lstart;
    while lend < |cur'| && cur'[lend][col] == '|'
      invariant lstart <= lend <= lstart + Down(lines, lstart, col) && Cleared(lines, cur', lstart, col, lend)
    {
      TopDown(lines, lstart, col, lend);
      var blanked := BlankRun(cur'[lend], col, col);
      cur' := cur'[lend := blanked];
      lend := lend + 1;
    }
    if lend < lstart + Down(lines, lstart, col) {
      TopDown(lines, lstart, col, lend);
    }
    k := lend - lstart;
    ColumnDone(lines, cur', lstart, col);
  }

  // ---- str2req (gadget.py:683-850) ----

  /** Each phase keeps the length of every line and only ever blanks
    * characters. */
  lemma LineAfterBlanks(ph: Phase, line: string)
    ensures |LineAfter(ph, line)| == |line|
    ensures forall j | 0 <= j < |line| :: LineAfter(ph, line)[j] == line[j] || LineAfter(ph, line)[j] == ' '
  {
    if ph == Buttons {
      BlankAllAt(line, Pairs(line));
    }
  }

  /** Blanking characters keeps the shape. */
  lemma ShapeAfter(ph: Phase, lines: seq<string>, m: nat)
    requires Shape(lines, m)
    ensures Shape(PhaseAfter(ph, lines), m)
  {
    forall i | 0 <= i < |lines| {
      LineAfterBlanks(ph, lines[i]);
    }
  }

  /** The prepared lines str2req scans: a blank first line dropped and every
    * line padded to the widest. */
  function Prepared(reqlines: seq<string>): seq<string>
  {
    var t := Trimmed(reqlines);
    Padded(t, MaxWidth(t))
  }

  /** Padding to the widest line leaves no '|' beyond it: a longer line is
    * one whose last character is ']'. */
  lemma PreparedShape(reqlines: seq<string>)
    ensures Shape(Prepared(reqlines), MaxWidth(Trimmed(reqlines)))
  {
    var t := Trimmed(reqlines);
    var m := MaxWidth(t);
    var p := Padded(t, m);
    MaxWidthIsMax(t);
    forall i | 0 <= i < |p|
      ensures |p[i]| >= m && forall j | m <= j < |p[i]| :: p[i][j] != '|'
    {
      assert Width(t[i]) <= m;
      forall j | m <= j < |p[i]|
        ensures p[i][j] != '|'
      {
        if j < |t[i]| {
          assert p[i][j] == t[i][j];
        }
      }
    }
  }

  /** The lines after the buttons and both kinds of slider are taken out. */
  function AfterSliders(reqlines: seq<string>): seq<string>
  {
    NoBars(PhaseAfter(Sliders, PhaseAfter(Buttons, Prepared(reqlines))))
  }

  /** What the label phase sees. */
  function AfterFields(reqlines: seq<string>): seq<string>
  {
    PhaseAfter(Fields, AfterSliders(reqlines))
  }

  /** The gadgets str2req adds after the title, in order: buttons,
    * horizontal sliders, vertical sliders, string fields, then labels. */
  function Layout(reqlines: seq<string>): seq<Spec>
  {
    var p0 := Prepared(reqlines);
    var p1 := PhaseAfter(Buttons, p0);
    var p2 := PhaseAfter(Sliders, p1);
    PhaseSpecs(Buttons, p0) + PhaseSpecs(Sliders, p1) + VSpecs(p2, |p2|) +
    PhaseSpecs(Fields, NoBars(p2)) + PhaseSpecs(Labels, AfterFields(reqlines))
  }

  /** The maxvalue a new gadget of this spec gets. */
  function SpecMax(sp: Spec): int
  {
    if sp.maxvalue.Some? then sp.maxvalue.value else if IsSlider(sp.kind) then 100 else if sp.kind == STRING then 1 else 0
  }

  /** g is the gadget str2req makes for sp with character cells of the
    * given size: enabled, unselected, with value 0 and no text. */
  ghost predicate Built(g: Gadget, sp: Spec, cell: Cell)
    reads g
  {
    var r := SpecRect(sp, cell);
    g.Snap() == GState(sp.kind, r, r, 0, 0, 0, "", SpecMax(sp), true, true) &&
    g.caption == sp.caption && g.id == SpecId(sp)
  }

  /** The requester's rectangle: as wide as the widest line and as high as
    * the lines below the title line. */
  function ReqRect(reqlines: seq<string>, cell: Cell): Rect
  {
    Rect(0, 0, MaxWidth(Trimmed(reqlines)) * cell.fx, |Trimmed(reqlines)| * cell.fy + cell.yo)
  }

  /** req has the given title and rectangle; with a title its first gadget
    * is the title bar, a LABEL of height fonty over the top edge; then come
    * the gadgets built from specs, in order. */
  ghost predicate Made(req: Requestor, title: string, rect: Rect, fonty: int, specs: seq<Spec>, cell: Cell)
    reads req, req.gadgets
  {
    var n := if title == "" then 0 else 1;
    var bar := Rect(rect.x - 2, rect.y - 2, rect.w + 1, fonty);
    req.Valid() && req.title == title && req.rect == rect && |req.gadgets| == n + |specs| &&
    (title != "" ==> req.gadgets[0].id == "__reqtitle" && req.gadgets[0].Snap() == GState(LABEL, bar, bar, 0, 0, 0, "", 0, true, true)) &&
    forall k | 0 <= k < |specs| :: Built(req.gadgets[n + k], specs[k], cell)
  }

  /** str2req on the lines of the layout (custom characters left out): a
    * new requester of size ReqRect whose gadgets, all new, are the title
    * bar when there is a title and then one per entry of Layout, in order. */
  method Str2Req(title: string, reqlines: seq<string>, font: Option<Font>) returns (req: Requestor)
    ensures fresh(req) && forall k | 0 <= k < |req.gadgets| :: fresh(req.gadgets[k])
    ensures Made(req, title, ReqRect(reqlines, CellOf(title, font)), RequestorFonty(font), Layout(reqlines), CellOf(title, font))
  {
    var cell, maxlen, ysize, p0 := Measure(title, reqlines, font);
    var specs := Phases(reqlines, p0, maxlen);
    req := Build(title, Rect(0, 0, maxlen * cell.fx, ysize), RequestorFonty(font), specs, cell);
  }

  /** The Requestor call and the req.add calls of str2req: the requester
    * with its title gadget, then one new gadget per spec, in order. The
    * requester is made here after the lines are parsed; the parse does not
    * read it, so the order makes no difference. */
  method Build(title: string, rect: Rect, fonty: int, specs: seq<Spec>, cell: Cell) returns (req: Requestor)
    ensures fresh(req) && forall k | 0 <= k < |req.gadgets| :: fresh(req.gadgets[k])
    ensures Made(req, title, rect, fonty, specs, cell)
  {
    req := new Requestor(title, rect, fonty);
    ghost var before := req.gadgets;
    AddSpecs(req, specs, cell);
    forall k | 0 <= k < |req.gadgets|
      ensures fresh(req.gadgets[k])
    {
      if k < |before| {
        assert req.gadgets[k] == before[k];
      }
    }
  }

  /** The first part of str2req: the blank first line dropped, the cell
    * size, the widest line, the height and the padded lines. */
  method Measure(title: string, reqlines: seq<string>, font: Option<Font>)
    returns (cell: Cell, maxlen: nat, ysize: nat, p0: seq<string>)
    ensures cell == CellOf(title, font) && maxlen == MaxWidth(Trimmed(reqlines))
    ensures ysize == |Trimmed(reqlines)| * cell.fy + cell.yo && p0 == Prepared(reqlines)
  {
    var lines := reqlines;
    if |lines| > 0 && IsBlank(lines[0]) {
      lines := lines[1..];
    }
    var fx, fy;
    if font.None? {
      fx, fy := 8, 12;
    } else {
      fx, fy := font.value.xsize, LineHeight(font.value);
    }
    var yo := 0;
    ysize := |lines| * fy;
    if title != "" {
      yo := fy;
      ysize := ysize + yo;
    }
    maxlen := ScanWidths(lines);
    p0 := PadLines(lines, maxlen);
    cell := Cell(fx, fy, yo);
  }

  /** The phases of str2req, one after the other, on the prepared lines. */
  method Phases(ghost reqlines: seq<string>, p0: seq<string>, maxlen: nat) returns (specs: seq<Spec>)
    requires p0 == Prepared(reqlines) && maxlen == MaxWidth(Trimmed(reqlines))
    ensures specs == Layout(reqlines)
  {
    var s1, p1 := RunPhase(Buttons, p0);
    var s2, p2 := RunPhase(Sliders, p1);
    PreparedShape(reqlines);
    ShapeAfter(Buttons, p0, maxlen);
    ShapeAfter(Sliders, p1, maxlen);
    var s3, p3 := VertPhase(p2, maxlen);
    var s4, p4 := RunPhase(Fields, p3);
    var s5, p5 := RunPhase(Labels, p4);
    specs := s1 + s2 + s3 + s4 + s5;
  }

  /** The req.add calls: one new gadget per spec, appended in order. */
  method AddSpecs(req: Requestor, specs: seq<Spec>, cell: Cell)
    requires req.Valid()
    modifies req
    ensures req.Valid() && req.title == old(req.title) && req.rect == old(req.rect)
    ensures |req.gadgets| == |old(req.gadgets)| + |specs| && req.gadgets[..|old(req.gadgets)|] == old(req.gadgets)
    ensures forall k | |old(req.gadgets)| <= k < |req.gadgets| ::
              fresh(req.gadgets[k]) && Built(req.gadgets[k], specs[k - |old(req.gadgets)|], cell)
  {
    var i := 0;
    while i < |specs|
      invariant i <= |specs| && req.Valid() && req.title == old(req.title) && req.rect == old(req.rect)
      invariant |req.gadgets| == |old(req.gadgets)| + i && req.gadgets[..|old(req.gadgets)|] == old(req.gadgets)
      invariant forall k | |old(req.gadgets)| <= k < |req.gadgets| ::
                  fresh(req.gadgets[k]) && Built(req.gadgets[k], specs[k - |old(req.gadgets)|], cell)
    {
      var sp := specs[i];
      var g := new Gadget(sp.kind, sp.caption, SpecRect(sp, cell), None, None, sp.maxvalue, Some(SpecId(sp)), true);
      req.Add(g);
      i := i + 1;
    }
  }

  /** Every gadget a phase finds comes from one of its lines. */
  lemma {:induction false} PhaseSpecsFrom(ph: Phase, lines: seq<string>, sp: Spec)
    requires sp in PhaseSpecs(ph, lines)
    ensures exists i | 0 <= i < |lines| :: sp in LineSpecs(ph, lines[i], i)
  {
    var init := lines[..|lines| - 1];
    if sp in PhaseSpecs(ph, init) {
      PhaseSpecsFrom(ph, init, sp);
      var i :| 0 <= i < |init| && sp in LineSpecs(ph, init[i], i);
      assert lines[i] == init[i];
    }
  }

  /** What the label phase sees holds no '-', '_' or '|': every slider and
    * string field has been taken out before it. */
  lemma AfterFieldsClean(reqlines: seq<string>)
    ensures var p := AfterFields(reqlines);
            forall i, j | 0 <= i < |p| && 0 <= j < |p[i]| :: p[i][j] != '-' && p[i][j] != '_' && p[i][j] != '|'
  {
  }

  /** The labels found in a line free of '-', '_' and '|' are non-empty
    * runs of it without a space or one of those. */
  lemma LineLabelsClean(line: string, row: nat)
    requires forall j | 0 <= j < |line| :: line[j] != '-' && line[j] != '_' && line[j] != '|'
    ensures forall sp | sp in LineSpecs(Labels, line, row) ::
              sp.kind == LABEL && |sp.caption| > 0 &&
              forall j | 0 <= j < |sp.caption| :: sp.caption[j] !in " -_|"
  {
    var t := RStrip(line);
    var ws := RunsFrom(t, Except(' '), 0);
    RunsSound(t, Except(' '), 0);
    forall w | 0 <= w < |ws|
      ensures var sp := LabelSpec(t, ws[w], row);
              sp.kind == LABEL && |sp.caption| > 0 && forall j | 0 <= j < |sp.caption| :: sp.caption[j] !in " -_|"
    {
      var r := ws[w];
      assert r.len >= 1 && r.start + r.len <= |t|;
      assert Slice(t, r.start, r.start + r.len) == t[r.start..r.start + r.len];
      forall j | r.start <= j < r.start + r.len
        ensures t[j] !in " -_|"
      {
        assert t[j] == line[j];
      }
    }
  }

  /** The labels are the words the other phases left: each is a non-empty
    * run of characters that are not spaces and not '-', '_' or '|'. */
  lemma LabelsClean(reqlines: seq<string>)
    ensures forall sp | sp in PhaseSpecs(Labels, AfterFields(reqlines)) ::
              sp.kind == LABEL && |sp.caption| > 0 &&
              forall j | 0 <= j < |sp.caption| :: sp.caption[j] !in " -_|"
  {
    var p := AfterFields(reqlines);
    AfterFieldsClean(reqlines);
    forall sp | sp in PhaseSpecs(Labels, p)
      ensures sp.kind == LABEL && |sp.caption| > 0 && forall j | 0 <= j < |sp.caption| :: sp.caption[j] !in " -_|"
    {
      PhaseSpecsFrom(Labels, p, sp);
      var i :| 0 <= i < |p| && sp in LineSpecs(Labels, p[i], i);
      LineLabelsClean(p[i], i);
    }
  }
}
