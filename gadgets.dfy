// The gadgets of gadget.py: the slider and cursor mappings and the hit test
// (gadget.py:276-315), the event state machine every gadget runs
// (gadget.py:421-555), and the requester that dispatches an event to all of
// its gadgets and moves the focus between string fields on TAB
// (gadget.py:583-623).

module Gadgets {
  import opened Support
  import opened Geometry

  // Gadget types (gadget.py:242).
  const BOOL := 0
  const IMAGE := 1
  const PROP := 2
  const PROP_VERT := 3
  const STRING := 4
  const CUSTOM := 5
  const LABEL := 6

  // Gadget event types (gadget.py:230).
  const GADGETDOWN := 0
  const GADGETUP := 1
  const MOUSEMOVE := 2
  const KEY := 3

  // The character cell of the module's default font (gadget.py:31-32).
  const FONTX := 8
  const FONTY := 12

  /** The keys a string field reacts to; every other key is OtherKey. */
  datatype Key = Right | Left | Home | End | Backspace | Delete | Return | KpEnter | Escape | Tab | OtherKey

  /** The pygame events a gadget tells apart, with the text a key press types
    * and whether shift was held. */
  datatype Input =
    | Motion
    | Press(button: int)
    | Release(button: int)
    | KeyPress(key: Key, unicode: string, shift: bool)
    | OtherInput

  /** coords2prop raises ZeroDivisionError when the track of a slider is
    * exactly one character cell long. */
  datatype Fault = ZeroDivisionError

  predicate IsSlider(kind: int)
  {
    kind == PROP || kind == PROP_VERT
  }

  /** pointin (gadget.py:308-315). */
  predicate PointIn(p: Point, r: Rect)
  {
    r.x <= p.x < r.x + r.w && r.y <= p.y <= r.y + r.h
  }

  /** The hit test is half-open across and closed down: the column just right
    * of the rectangle is outside, the row just below its last row is inside. */
  lemma PointInEdges(r: Rect)
    requires r.w > 0 && r.h >= 0
    ensures PointIn(Point(r.x, r.y), r) && PointIn(Point(r.x + r.w - 1, r.y + r.h), r)
    ensures !PointIn(Point(r.x + r.w, r.y), r) && !PointIn(Point(r.x - 1, r.y), r)
    ensures !PointIn(Point(r.x, r.y - 1), r) && !PointIn(Point(r.x, r.y + r.h + 1), r)
  {
  }

  /** What coords2prop gives: a slider value, Python's None for a gadget that
    * is not a slider, or the division by zero of a one-cell track. */
  datatype Reading = Value(v: int) | NotSlider | DivisionByZero

  /** coords2prop (gadget.py:276-294): the mouse position along the track,
    * scaled to [0, maxvalue - 1] and clamped. A PROP_VERT slider counts up
    * from its bottom edge. */
  function Coords2Prop(kind: int, r: Rect, maxvalue: int, p: Point): (v: Reading)
    ensures v.NotSlider? <==> !IsSlider(kind)
    ensures v.DivisionByZero? <==> (kind == PROP && r.w == FONTX) || (kind == PROP_VERT && r.h == FONTX)
    ensures v.Value? && maxvalue >= 1 ==> 0 <= v.v < maxvalue
  {
    if !IsSlider(kind) then NotSlider
    else
      var num := if kind == PROP then (p.x - r.x) * (maxvalue - 1) else (r.h - p.y + r.y) * (maxvalue - 1);
      var den := if kind == PROP then r.w - FONTX else r.h - FONTX;
      if den == 0 then DivisionByZero
      else
        var raw := FloorDiv(num, den);
        Value(if raw < 0 then 0 else if raw >= maxvalue then maxvalue - 1 else raw)
  }

  lemma {:induction false} MulMono(a: int, b: int, c: int)
    requires a <= b && c >= 0
    ensures a * c <= b * c
  {
    var k := b - a;
    assert b * c == a * c + k * c;
    assert k * c >= 0;
  }

  lemma {:induction false} DivMono(a: int, b: int, d: int)
    requires a <= b && d > 0
    ensures a / d <= b / d
  {
    if a / d > b / d {
      MulMono(b / d + 1, a / d, d);
      assert false;
    }
  }

  /** On a track longer than one cell the slider value never decreases as
    * the mouse moves right (PROP) or up (PROP_VERT). */
  lemma {:induction false} Coords2PropMonotone(kind: int, r: Rect, maxvalue: int, p: Point, q: Point)
    requires maxvalue >= 1
    requires (kind == PROP && r.w > FONTX && p.x <= q.x) || (kind == PROP_VERT && r.h > FONTX && q.y <= p.y)
    ensures Coords2Prop(kind, r, maxvalue, p).Value? && Coords2Prop(kind, r, maxvalue, q).Value?
    ensures Coords2Prop(kind, r, maxvalue, p).v <= Coords2Prop(kind, r, maxvalue, q).v
  {
    var den := if kind == PROP then r.w - FONTX else r.h - FONTX;
    var a := if kind == PROP then p.x - r.x else r.h - p.y + r.y;
    var b := if kind == PROP then q.x - r.x else r.h - q.y + r.y;
    MulMono(a, b, maxvalue - 1);
    FloorDivPositive(a * (maxvalue - 1), den);
    FloorDivPositive(b * (maxvalue - 1), den);
    DivMono(a * (maxvalue - 1), b * (maxvalue - 1), den);
  }

  /** The track runs over the whole range: its start gives 0 and the point
    * one cell before its far end gives maxvalue - 1. */
  lemma {:induction false} Coords2PropEnds(r: Rect, maxvalue: int, y: int)
    requires r.w > FONTX && maxvalue >= 1
    ensures Coords2Prop(PROP, r, maxvalue, Point(r.x, y)) == Value(0)
    ensures Coords2Prop(PROP, r, maxvalue, Point(r.x + r.w - FONTX, y)) == Value(maxvalue - 1)
  {
    var d := r.w - FONTX;
    FloorDivPositive(0, d);
    FloorDivPositive(d * (maxvalue - 1), d);
    DivModUnique(d * (maxvalue - 1), d, maxvalue - 1, 0);
    assert (r.x + r.w - FONTX - r.x) * (maxvalue - 1) == d * (maxvalue - 1);
  }

  /** coords2char (gadget.py:296-306) for a string field holding text: the
    * character cell under the mouse, clamped to [0, |text|]. */
  function Coords2Char(r: Rect, text: string, p: Point): (i: nat)
    ensures i <= |text|
  {
    var raw := FloorDiv(p.x - r.x, FONTX);
    if raw < 0 then 0 else if raw >= |text| then |text| else raw
  }

  /** Clicking anywhere in the cell where the cursor for position i is drawn
    * (i cells right of the field's left edge) puts the cursor at i. */
  lemma {:induction false} Coords2CharCell(r: Rect, text: string, i: nat, d: int, y: int)
    requires i <= |text| && 0 <= d < FONTX
    ensures Coords2Char(r, text, Point(r.x + i * FONTX + d, y)) == i
  {
    FloorDivPositive(i * FONTX + d, FONTX);
    DivModUnique(i * FONTX + d, FONTX, i, d);
  }

  /** The fields of a gadget that process_event reads or writes: the type,
    * the screen rectangle and the slider knob's rectangle, the selection
    * state (0 not selected, 1 selected, 2 held outside), the cursor, the
    * slider value or the string field's text, maxvalue, whether it is
    * enabled and whether it must be redrawn. */
  datatype GState = GState(kind: int, rect: Rect, knob: Rect, state: int, pos: nat,
                           value: int, text: string, maxvalue: int, enabled: bool, redraw: bool)

  /** A gadget after one block of process_event and the events it emitted. */
  datatype Outcome = Outcome(g: GState, events: seq<int>)

  /** Python's s[:n] and s[n:] for n >= 0. */
  function Take(s: string, n: nat): string
  {
    if n <= |s| then s[..n] else s
  }

  function Drop(s: string, n: nat): string
  {
    if n <= |s| then s[n..] else []
  }

  /** One character whose code is in [32, 128). */
  predicate Printable(u: string)
  {
    |u| == 1 && 32 <= u[0] as int < 128
  }

  /** The not-selected block of process_event (gadget.py:434-478). */
  function Unselected(g: GState, ev: Input, at: Point): Result<Outcome, Fault>
  {
    if g.state != 0 || !PointIn(at, g.rect) then Ok(Outcome(g, []))
    else if ev == Press(1) then
      if g.kind == BOOL then Ok(Outcome(g.(redraw := true, state := 1), []))
      else if IsSlider(g.kind) then
        var r := Coords2Prop(g.kind, g.rect, g.maxvalue, at);
        if !r.Value? then Err(ZeroDivisionError)
        else if PointIn(at, g.knob) then Ok(Outcome(g.(value := r.v, redraw := true, state := 1), [GADGETDOWN]))
        else if r.v < g.value then Ok(Outcome(g.(redraw := true, value := g.value - 1), [GADGETUP]))
        else if r.v > g.value then Ok(Outcome(g.(redraw := true, value := g.value + 1), [GADGETUP]))
        else Ok(Outcome(g, []))
      else if g.kind == STRING then
        Ok(Outcome(g.(redraw := true, state := 1, pos := Coords2Char(g.rect, g.text, at)), [GADGETDOWN]))
      else if g.kind == LABEL then Ok(Outcome(g.(state := 1), [GADGETDOWN]))
      else Ok(Outcome(g, []))
    else if ev == Press(4) then
      if IsSlider(g.kind) && g.value < g.maxvalue - 1 then Ok(Outcome(g.(redraw := true, value := g.value + 1), [GADGETUP]))
      else Ok(Outcome(g, []))
    else if ev == Press(5) then
      if IsSlider(g.kind) && g.value > 0 then Ok(Outcome(g.(redraw := true, value := g.value - 1), [GADGETUP]))
      else Ok(Outcome(g, []))
    else Ok(Outcome(g, []))
  }

  /** A key pressed in a selected string field (gadget.py:509-535). */
  function Edit(g: GState, key: Key, u: string): Outcome
  {
    match key
    case Right => Outcome(if g.pos < |g.text| then g.(pos := g.pos + 1) else g, [KEY])
    case Left => Outcome(if g.pos > 0 then g.(pos := g.pos - 1) else g, [KEY])
    case Home => Outcome(g.(pos := 0), [KEY])
    case End => Outcome(g.(pos := |g.text|), [KEY])
    case Backspace =>
      Outcome(if g.pos > 0 then g.(text := Take(g.text, g.pos - 1) + Drop(g.text, g.pos), pos := g.pos - 1) else g, [KEY])
    case Delete =>
      Outcome(if g.pos < |g.text| then g.(text := Take(g.text, g.pos) + Drop(g.text, g.pos + 1)) else g, [KEY])
    case Return => Outcome(g.(state := 0), [KEY, GADGETUP])
    case KpEnter => Outcome(g.(state := 0), [KEY, GADGETUP])
    case Escape => Outcome(g.(state := 0), [KEY, GADGETUP])
    case _ =>
      if Printable(u) && |g.text| < g.maxvalue
      then Outcome(g.(text := Take(g.text, g.pos) + u + Drop(g.text, g.pos), pos := g.pos + 1), [KEY])
      else Outcome(g, [KEY])
  }

  /** The selected block of process_event (gadget.py:481-542). */
  function Selected(g: GState, ev: Input, at: Point): Result<Outcome, Fault>
  {
    if g.state != 1 then Ok(Outcome(g, []))
    else if g.kind == BOOL then
      if !PointIn(at, g.rect) then Ok(Outcome(g.(redraw := true, state := 2), []))
      else if ev == Release(1) then Ok(Outcome(g.(redraw := true, state := 0), [GADGETUP]))
      else Ok(Outcome(g, []))
    else if IsSlider(g.kind) then
      var r := Coords2Prop(g.kind, g.rect, g.maxvalue, at);
      if !r.Value? then Err(ZeroDivisionError)
      else
        var moved := if r.v != g.value then Outcome(g.(redraw := true, value := r.v), [MOUSEMOVE]) else Outcome(g, []);
        if ev == Release(1) then Ok(Outcome(moved.g.(redraw := true, state := 0), moved.events + [GADGETUP]))
        else Ok(moved)
    else if g.kind == STRING then
      if ev == Press(1) then
        if PointIn(at, g.rect) then Ok(Outcome(g.(redraw := true, pos := Coords2Char(g.rect, g.text, at)), []))
        else Ok(Outcome(g.(redraw := true, state := 0), [GADGETUP]))
      else if ev.KeyPress? then Ok(Edit(g.(redraw := true), ev.key, ev.unicode))
      else Ok(Outcome(g, []))
    else if g.kind == LABEL then Ok(Outcome(g.(state := 0), [GADGETUP]))
    else if ev == Release(1) then Ok(Outcome(g.(redraw := true, state := 0), [GADGETUP]))
    else Ok(Outcome(g, []))
  }

  /** The held-outside block of process_event (gadget.py:545-553). */
  function Away(g: GState, ev: Input, at: Point): GState
  {
    if g.state != 2 || g.kind != BOOL then g
    else
      var back := if PointIn(at, g.rect) then g.(redraw := true, state := 1) else g;
      if ev == Release(1) then back.(redraw := true, state := 0) else back
  }

  /** process_event: a disabled gadget ignores the event; otherwise the
    * three blocks run one after the other, each seeing the state the
    * previous one left. */
  function Step(g: GState, ev: Input, at: Point): Result<Outcome, Fault>
  {
    if !g.enabled then Ok(Outcome(g, []))
    else match Unselected(g, ev, at)
      case Err(e) => Err(e)
      case Ok(o0) =>
        match Selected(o0.g, ev, at)
        case Err(e) => Err(e)
        case Ok(o1) => Ok(Outcome(Away(o1.g, ev, at), o0.events + o1.events))
  }

  /** Every event keeps a string field's cursor within its text and never
    * lets the text grow past maxvalue; the type and rectangles never change. */
  lemma {:induction false} CursorStaysInText(g: GState, ev: Input, at: Point)
    requires g.kind == STRING && g.pos <= |g.text| <= g.maxvalue
    ensures Step(g, ev, at).Ok?
    ensures var o := Step(g, ev, at).value.g;
            o.pos <= |o.text| <= o.maxvalue && o.kind == g.kind && o.rect == g.rect && o.maxvalue == g.maxvalue
  {
    if g.enabled {
      var o0 := Unselected(g, ev, at).value;
      assert o0.g.pos <= |o0.g.text| == |g.text|;
      if o0.g.state == 1 && ev.KeyPress? {
        var h := o0.g.(redraw := true);
        assert Selected(o0.g, ev, at) == Ok(Edit(h, ev.key, ev.unicode));
        EditKeepsCursor(h, ev.key, ev.unicode);
      }
    }
  }

  lemma {:induction false} EditKeepsCursor(g: GState, key: Key, u: string)
    requires g.pos <= |g.text| <= g.maxvalue
    ensures var o := Edit(g, key, u).g;
            o.pos <= |o.text| <= o.maxvalue && o.kind == g.kind && o.rect == g.rect && o.maxvalue == g.maxvalue
  {
    var o := Edit(g, key, u).g;
    if key == Backspace && g.pos > 0 {
      assert o.text == g.text[..g.pos - 1] + g.text[g.pos..];
    } else if key == Delete && g.pos < |g.text| {
      assert o.text == g.text[..g.pos] + g.text[g.pos + 1..];
    } else if key.OtherKey? || key == Tab {
      if Printable(u) && |g.text| < g.maxvalue {
        assert o.text == g.text[..g.pos] + u + g.text[g.pos..];
      }
    }
  }

  /** A key press reaches a focused string field as an edit. */
  lemma {:induction false} KeyStep(g: GState, k: Key, u: string, shift: bool, at: Point)
    requires g.kind == STRING && g.enabled && g.state == 1
    ensures Step(g, KeyPress(k, u, shift), at) == Ok(Edit(g.(redraw := true), k, u))
  {
    var h := g.(redraw := true);
    assert Unselected(g, KeyPress(k, u, shift), at) == Ok(Outcome(g, []));
    var o := Edit(h, k, u);
    assert Selected(g, KeyPress(k, u, shift), at) == Ok(o);
    assert Away(o.g, KeyPress(k, u, shift), at) == o.g;
    assert [] + o.events == o.events;
  }

  /** A string field that has the focus reads a key press as an edit and
    * reports it with a KEY event, whatever the mouse position. */
  lemma {:induction false} EditingKeys(g: GState, k: Key, u: string, shift: bool, at: Point)
    requires g.kind == STRING && g.enabled && g.state == 1 && g.pos <= |g.text|
    ensures Step(g, KeyPress(k, u, shift), at).Ok?
    ensures var o := Step(g, KeyPress(k, u, shift), at).value;
      o.g.redraw && |o.events| >= 1 && o.events[0] == KEY &&
      (k == Right ==> o.g.text == g.text && o.g.pos == Min(g.pos + 1, |g.text|)) &&
      (k == Left ==> o.g.text == g.text && o.g.pos == Max(g.pos - 1, 0)) &&
      (k == Home ==> o.g.text == g.text && o.g.pos == 0) &&
      (k == End ==> o.g.text == g.text && o.g.pos == |g.text|) &&
      (k == Backspace && g.pos > 0 ==>
         o.g.text == g.text[..g.pos - 1] + g.text[g.pos..] && o.g.pos == g.pos - 1) &&
      (k == Backspace && g.pos == 0 ==> o.g.text == g.text && o.g.pos == 0) &&
      (k == Delete && g.pos < |g.text| ==>
         o.g.text == g.text[..g.pos] + g.text[g.pos + 1..] && o.g.pos == g.pos) &&
      (k == Delete && g.pos == |g.text| ==> o.g.text == g.text && o.g.pos == g.pos) &&
      (k in {Return, KpEnter, Escape} <==> o.g.state == 0) &&
      (k in {Return, KpEnter, Escape} <==> o.events == [KEY, GADGETUP]) &&
      (k in {Return, KpEnter, Escape} ==> o.g.text == g.text && o.g.pos == g.pos)
  {
    KeyStep(g, k, u, shift, at);
  }

  /** Typed input: a key with no meaning of its own inserts its text at the
    * cursor and advances the cursor exactly when the text is one printable
    * character and the field is not full; otherwise the text stays. */
  lemma {:induction false} TypedInput(g: GState, k: Key, u: string, shift: bool, at: Point)
    requires g.kind == STRING && g.enabled && g.state == 1 && g.pos <= |g.text|
    requires k == Tab || k == OtherKey
    ensures Step(g, KeyPress(k, u, shift), at).Ok?
    ensures var o := Step(g, KeyPress(k, u, shift), at).value.g;
      o.state == 1 &&
      (o.text != g.text <==> Printable(u) && |g.text| < g.maxvalue) &&
      (Printable(u) && |g.text| < g.maxvalue ==>
         o.text == g.text[..g.pos] + u + g.text[g.pos..] && o.pos == g.pos + 1 && |o.text| == |g.text| + 1) &&
      (!(Printable(u) && |g.text| < g.maxvalue) ==> o.pos == g.pos)
  {
    KeyStep(g, k, u, shift, at);
    if Printable(u) && |g.text| < g.maxvalue {
      var t := g.text[..g.pos] + u + g.text[g.pos..];
      assert |t| == |g.text| + 1;
    }
  }

  /** Typing a character and then pressing BACKSPACE gives back the text
    * and the cursor as they were. */
  lemma {:induction false} TypeThenBackspace(g: GState, c: char, shift: bool, at: Point)
    requires g.kind == STRING && g.enabled && g.state == 1 && g.pos <= |g.text| < g.maxvalue
    requires Printable([c])
    ensures Step(g, KeyPress(OtherKey, [c], shift), at).Ok?
    ensures var o1 := Step(g, KeyPress(OtherKey, [c], shift), at).value.g;
            Step(o1, KeyPress(Backspace, [], shift), at).Ok? &&
            var o2 := Step(o1, KeyPress(Backspace, [], shift), at).value.g;
            o2.text == g.text && o2.pos == g.pos && o2.state == 1
  {
    KeyStep(g, OtherKey, [c], shift, at);
    var o1 := Edit(g.(redraw := true), OtherKey, [c]).g;
    KeyStep(o1, Backspace, [], shift, at);
    var t := g.text[..g.pos] + [c] + g.text[g.pos..];
    assert t[..g.pos] == g.text[..g.pos];
    assert t[g.pos + 1..] == g.text[g.pos..];
    assert g.text[..g.pos] + g.text[g.pos..] == g.text;
  }

  /** The BOOL button (gadget.py:437-440, 482-489, 545-553): a left press
    * inside selects it; leaving holds it outside (state 2) and coming back
    * selects it again; a release ends the press, and only a release over
    * the selected button reports GADGETUP. */
  lemma {:induction false} BoolTransitions(g: GState, ev: Input, at: Point)
    requires g.kind == BOOL && g.enabled && 0 <= g.state <= 2
    ensures Step(g, ev, at).Ok?
    ensures var o := Step(g, ev, at).value;
      var inside := PointIn(at, g.rect);
      (g.state == 0 ==> o.events == [] && o.g.state == if inside && ev == Press(1) then 1 else 0) &&
      (g.state == 1 && inside ==> o.g.state == (if ev == Release(1) then 0 else 1) &&
                                  o.events == (if ev == Release(1) then [GADGETUP] else [])) &&
      (g.state == 1 && !inside ==> o.events == [] && o.g.state == if ev == Release(1) then 0 else 2) &&
      (g.state == 2 ==> o.events == [] && o.g.state == if ev == Release(1) then 0 else if inside then 1 else 2) &&
      (GADGETUP in o.events <==> g.state == 1 && inside && ev == Release(1))
  {
  }

  /** Left press, wheel and drag all keep a slider's value in
    * [0, maxvalue - 1]; the only failure is the division by zero of a
    * one-cell track. */
  lemma {:induction false} SliderStaysInRange(g: GState, ev: Input, at: Point)
    requires IsSlider(g.kind) && 0 <= g.value < g.maxvalue
    ensures Step(g, ev, at).Ok? ==> 0 <= Step(g, ev, at).value.g.value < g.maxvalue
    ensures Step(g, ev, at).Err? ==> Coords2Prop(g.kind, g.rect, g.maxvalue, at).DivisionByZero?
  {
    if g.enabled {
      UnselectedSlider(g, ev, at);
      if Unselected(g, ev, at).Ok? {
        SelectedSlider(Unselected(g, ev, at).value.g, ev, at);
      }
    }
  }

  /** The not-selected block keeps a slider a slider with its value in range,
    * and fails only on a one-cell track. */
  lemma {:induction false} UnselectedSlider(g: GState, ev: Input, at: Point)
    requires IsSlider(g.kind) && 0 <= g.value < g.maxvalue
    ensures Unselected(g, ev, at).Ok? ==>
              var o := Unselected(g, ev, at).value.g;
              o.kind == g.kind && o.rect == g.rect && o.maxvalue == g.maxvalue && 0 <= o.value < o.maxvalue
    ensures Unselected(g, ev, at).Err? ==> Coords2Prop(g.kind, g.rect, g.maxvalue, at).DivisionByZero?
  {
  }

  /** So does the selected block. */
  lemma {:induction false} SelectedSlider(g: GState, ev: Input, at: Point)
    requires IsSlider(g.kind) && 0 <= g.value < g.maxvalue
    ensures Selected(g, ev, at).Ok? ==>
              var o := Selected(g, ev, at).value.g;
              o.kind == g.kind && o.maxvalue == g.maxvalue && 0 <= o.value < o.maxvalue
    ensures Selected(g, ev, at).Err? ==> Coords2Prop(g.kind, g.rect, g.maxvalue, at).DivisionByZero?
  {
  }

  /** A click on a LABEL reports GADGETDOWN and GADGETUP at once and leaves
    * it unselected, because the selected block runs right after the one
    * that selected it. */
  lemma {:induction false} LabelClick(g: GState, at: Point)
    requires g.kind == LABEL && g.enabled && g.state == 0 && PointIn(at, g.rect)
    ensures Step(g, Press(1), at) == Ok(Outcome(g, [GADGETDOWN, GADGETUP]))
  {
    var o0 := Outcome(g.(state := 1), [GADGETDOWN]);
    assert Unselected(g, Press(1), at) == Ok(o0);
    assert o0.g.(state := 0) == g;
    assert Selected(o0.g, Press(1), at) == Ok(Outcome(g, [GADGETUP]));
    assert Away(g, Press(1), at) == g;
    assert [GADGETDOWN] + [GADGETUP] == [GADGETDOWN, GADGETUP];
  }

  /** Python's str() of an integer. */
  function Decimal(n: int): (s: string)
    ensures |s| > 0 && (n >= 0 ==> IsDigits(s))
  {
    if n < 0 then "-" + Digits(-n) else Digits(n)
  }

  predicate IsDigits(s: string)
  {
    forall i | 0 <= i < |s| :: '0' <= s[i] <= '9'
  }

  function Digits(n: nat): (s: string)
    ensures |s| > 0 && IsDigits(s)
  {
    if n < 10 then [(48 + n) as char] else Digits(n / 10) + [(48 + n % 10) as char]
  }

  /** The value of a string of decimal digits. */
  function DigitsValue(s: string): nat
    requires IsDigits(s)
  {
    if |s| == 0 then 0 else DigitsValue(s[..|s| - 1]) * 10 + (s[|s| - 1] as int - 48)
  }

  /** Reading back the digits str() writes gives the number. */
  lemma {:induction false} DigitsRoundTrip(n: nat)
    ensures DigitsValue(Digits(n)) == n
  {
    if n >= 10 {
      DigitsRoundTrip(n / 10);
      var s := Digits(n);
      assert s[..|s| - 1] == Digits(n / 10);
    }
  }

  /** The part of s before the first c. */
  function UpTo(s: string, c: char): string
  {
    if |s| == 0 || s[0] == c then [] else [s[0]] + UpTo(s[1..], c)
  }

  lemma {:induction false} UpToSplit(a: string, t: string, c: char)
    requires c !in a
    ensures UpTo(a + [c] + t, c) == a
  {
    if |a| > 0 {
      assert (a + [c] + t)[1..] == a[1..] + [c] + t;
      UpToSplit(a[1..], t, c);
    }
  }

  /** The default gadget id str(x) + "_" + str(y). */
  function GadgetId(x: int, y: int): string
  {
    Decimal(x) + "_" + Decimal(y)
  }

  /** Gadgets placed at different non-negative positions get different
    * default ids. */
  lemma {:induction false} GadgetIdInjective(x1: nat, y1: nat, x2: nat, y2: nat)
    requires GadgetId(x1, y1) == GadgetId(x2, y2)
    ensures x1 == x2 && y1 == y2
  {
    var s := GadgetId(x1, y1);
    var a1, a2 := Digits(x1), Digits(x2);
    UpToSplit(a1, Decimal(y1), '_');
    UpToSplit(a2, Decimal(y2), '_');
    assert a1 == a2;
    var b1, b2 := Digits(y1), Digits(y2);
    assert b1 == s[|a1| + 1..] == b2;
    DigitsRoundTrip(x1);
    DigitsRoundTrip(x2);
    DigitsRoundTrip(y1);
    DigitsRoundTrip(y2);
  }

  class Gadget {
    var kind: int
    var caption: string
    var rect: Rect
    var knob: Rect
    var state: int
    var pos: nat
    var value: int
    var text: string
    var maxvalue: int
    var id: string
    var enabled: bool
    var redraw: bool

    function Snap(): GState
      reads this
    {
      GState(kind, rect, knob, state, pos, value, text, maxvalue, enabled, redraw)
    }

    /** __init__ (gadget.py:245-274): unselected, cursor 0; a missing value
      * is 0 for a slider and "" for a string field, a missing maxvalue 100
      * for a slider and 1 for a string field, and a missing id is made from
      * the rectangle's corner. The slider value and the string field's text
      * are separate parameters here. */
    constructor (kind: int, caption: string, rect: Rect, value: Option<int>, text: Option<string>,
                 maxvalue: Option<int>, id: Option<string>, enabled: bool)
      ensures this.kind == kind && this.caption == caption && this.rect == rect && knob == rect
      ensures state == 0 && pos == 0 && this.enabled == enabled && redraw
      ensures this.value == (if value.Some? then value.value else 0)
      ensures this.text == (if text.Some? then text.value else "")
      ensures this.maxvalue == if maxvalue.Some? then maxvalue.value
                               else if IsSlider(kind) then 100 else if kind == STRING then 1 else 0
      ensures this.id == if id.Some? then id.value else GadgetId(rect.x, rect.y)
    {
      this.kind := kind;
      this.caption := caption;
      this.rect := rect;
      knob := rect;
      state := 0;
      pos := 0;
      this.enabled := enabled;
      redraw := true;
      this.value := if value.Some? then value.value else 0;
      this.text := if text.Some? then text.value else "";
      if maxvalue.Some? {
        this.maxvalue := maxvalue.value;
      } else if kind == PROP || kind == PROP_VERT {
        this.maxvalue := 100;
      } else if kind == STRING {
        this.maxvalue := 1;
      } else {
        this.maxvalue := 0;
      }
      this.id := if id.Some? then id.value else GadgetId(rect.x, rect.y);
    }

    /** process_event (gadget.py:421-555) with the mouse at `at`: the new
      * fields and the events are those of Step; on the division by zero,
      * which Python raises before changing anything, nothing changes. */
    method ProcessEvent(ev: Input, at: Point) returns (r: Result<seq<int>, Fault>)
      modifies this
      ensures caption == old(caption) && id == old(id)
      ensures match Step(old(Snap()), ev, at)
              case Ok(o) => r == Ok(o.events) && Snap() == o.g
              case Err(e) => r == Err(e) && Snap() == old(Snap())
    {
      if !enabled {
        return Ok([]);
      }
      var e0 := Unselect(ev, at);
      if e0.Err? {
        return Err(ZeroDivisionError);
      }
      var e1 := Select(ev, at);
      if e1.Err? {
        return Err(ZeroDivisionError);
      }
      HeldAway(ev, at);
      r := Ok(e0.value + e1.value);
    }

    /** The not-selected block. */
    method Unselect(ev: Input, at: Point) returns (r: Result<seq<int>, Fault>)
      modifies this
      ensures caption == old(caption) && id == old(id)
      ensures match Unselected(old(Snap()), ev, at)
              case Ok(o) => r == Ok(o.events) && Snap() == o.g
              case Err(e) => r == Err(e) && Snap() == old(Snap())
    {
      r := Ok([]);
      if state == 0 && PointIn(at, rect) {
        if ev == Press(1) {
          if kind == BOOL {
            redraw := true;
            state := 1;
          } else if kind == PROP || kind == PROP_VERT {
            var reading := Coords2Prop(kind, rect, maxvalue, at);
            if !reading.Value? {
              return Err(ZeroDivisionError);
            }
            if PointIn(at, knob) {
              if value != reading.v {
                value := reading.v;
              }
              redraw := true;
              state := 1;
              r := Ok([GADGETDOWN]);
            } else if reading.v < value {
              redraw := true;
              value := value - 1;
              r := Ok([GADGETUP]);
            } else if reading.v > value {
              redraw := true;
              value := value + 1;
              r := Ok([GADGETUP]);
            }
          } else if kind == STRING {
            redraw := true;
            state := 1;
            pos := Coords2Char(rect, text, at);
            r := Ok([GADGETDOWN]);
          } else if kind == LABEL {
            state := 1;
            r := Ok([GADGETDOWN]);
          }
        } else if ev == Press(4) {
          if (kind == PROP || kind == PROP_VERT) && value < maxvalue - 1 {
            redraw := true;
            value := value + 1;
            r := Ok([GADGETUP]);
          }
        } else if ev == Press(5) {
          if (kind == PROP || kind == PROP_VERT) && value > 0 {
            redraw := true;
            value := value - 1;
            r := Ok([GADGETUP]);
          }
        }
      }
    }

    /** The selected block. */
    method Select(ev: Input, at: Point) returns (r: Result<seq<int>, Fault>)
      modifies this
      ensures caption == old(caption) && id == old(id)
      ensures match Selected(old(Snap()), ev, at)
              case Ok(o) => r == Ok(o.events) && Snap() == o.g
              case Err(e) => r == Err(e) && Snap() == old(Snap())
    {
      r := Ok([]);
      if state == 1 {
        if kind == BOOL {
          if !PointIn(at, rect) {
            redraw := true;
            state := 2;
          } else if ev == Release(1) {
            redraw := true;
            state := 0;
            r := Ok([GADGETUP]);
          }
        } else if kind == PROP || kind == PROP_VERT {
          var reading := Coords2Prop(kind, rect, maxvalue, at);
          if !reading.Value? {
            return Err(ZeroDivisionError);
          }
          var evs := [];
          if value != reading.v {
            redraw := true;
            value := reading.v;
            evs := [MOUSEMOVE];
          }
          if ev == Release(1) {
            redraw := true;
            state := 0;
            evs := evs + [GADGETUP];
          }
          r := Ok(evs);
        } else if kind == STRING {
          if ev == Press(1) {
            if PointIn(at, rect) {
              redraw := true;
              pos := Coords2Char(rect, text, at);
            } else {
              redraw := true;
              state := 0;
              r := Ok([GADGETUP]);
            }
          } else if ev.KeyPress? {
            redraw := true;
            var evs := EditText(ev.key, ev.unicode);
            r := Ok(evs);
          }
        } else if kind == LABEL {
          state := 0;
          r := Ok([GADGETUP]);
        } else if ev == Release(1) {
          redraw := true;
          state := 0;
          r := Ok([GADGETUP]);
        }
      }
    }

    /** The editing keys of a selected string field. */
    method EditText(key: Key, u: string) returns (evs: seq<int>)
      modifies this
      ensures caption == old(caption) && id == old(id)
      ensures Snap() == Edit(old(Snap()), key, u).g && evs == Edit(old(Snap()), key, u).events
    {
      evs := [KEY];
      match key {
        case Right =>
          if pos < |text| {
            pos := pos + 1;
          }
        case Left =>
          if pos > 0 {
            pos := pos - 1;
          }
        case Home =>
          pos := 0;
        case End =>
          pos := |text|;
        case Backspace =>
          if pos > 0 {
            text := Take(text, pos - 1) + Drop(text, pos);
            pos := pos - 1;
          }
        case Delete =>
          if pos < |text| {
            text := Take(text, pos) + Drop(text, pos + 1);
          }
        case Return =>
          state := 0;
          evs := evs + [GADGETUP];
        case KpEnter =>
          state := 0;
          evs := evs + [GADGETUP];
        case Escape =>
          state := 0;
          evs := evs + [GADGETUP];
        case _ =>
          if Printable(u) && |text| < maxvalue {
            text := Take(text, pos) + u + Drop(text, pos);
            pos := pos + 1;
          }
      }
    }

    /** The held-outside block. */
    method HeldAway(ev: Input, at: Point)
      modifies this
      ensures caption == old(caption) && id == old(id)
      ensures Snap() == Away(old(Snap()), ev, at)
    {
      if state == 2 && kind == BOOL {
        if PointIn(at, rect) {
          redraw := true;
          state := 1;
        }
        if ev == Release(1) {
          redraw := true;
          state := 0;
        }
      }
    }
  }

  /** An event a requester reports: its type and the index of the gadget
    * that emitted it. */
  datatype GadgetEvent = GadgetEvent(kind: int, gadget: nat)

  function Tagged(evs: seq<int>, i: nat): (r: seq<GadgetEvent>)
    ensures |r| == |evs| && forall k | 0 <= k < |evs| :: r[k] == GadgetEvent(evs[k], i)
  {
    seq(|evs|, k requires 0 <= k < |evs| => GadgetEvent(evs[k], i))
  }

  /** The gadgets of a requester after some of them have seen an event, the
    * events reported so far, and whether a gadget raised. */
  datatype Batch = Batch(gs: seq<GState>, events: seq<GadgetEvent>, fault: bool)

  /** The first k gadgets, in list order, process the event; a gadget that
    * raises stops the loop with the earlier gadgets already updated. */
  function StepPrefix(gs: seq<GState>, ev: Input, at: Point, k: nat): (b: Batch)
    requires k <= |gs|
    ensures |b.gs| == |gs|
  {
    if k == 0 then Batch(gs, [], false) else Advance(StepPrefix(gs, ev, at, k - 1), ev, at, k - 1)
  }

  /** Gadget i processes the event, unless an earlier one has raised. */
  function Advance(b: Batch, ev: Input, at: Point, i: nat): (b': Batch)
    requires i < |b.gs|
    ensures |b'.gs| == |b.gs|
  {
    if b.fault then b
    else match Step(b.gs[i], ev, at)
      case Err(_) => b.(fault := true)
      case Ok(o) => Batch(b.gs[i := o.g], b.events + Tagged(o.events, i), false)
  }

  /** Requestor.process_event (gadget.py:583-623) without the title-bar
    * drag: every gadget processes the event, then TAB moves the focus. */
  function Dispatch(gs: seq<GState>, ev: Input, at: Point): Batch
  {
    var b := StepPrefix(gs, ev, at, |gs|);
    if !b.fault && ev.KeyPress? && ev.key == Tab then b.(gs := TabFocus(b.gs, ev.shift)) else b
  }

  /** Once a gadget has raised, the later gadgets are not reached. */
  lemma {:induction false} FaultSticks(gs: seq<GState>, ev: Input, at: Point, k: nat, n: nat)
    requires k <= n <= |gs| && StepPrefix(gs, ev, at, k).fault
    ensures StepPrefix(gs, ev, at, n) == StepPrefix(gs, ev, at, k)
    decreases n - k
  {
    if n > k {
      FaultSticks(gs, ev, at, k, n - 1);
    }
  }

  /** A requester's gadgets each see the event once, in list order: gadget i
    * ends as Step makes it from its own state. */
  lemma {:induction false} StepPrefixEach(gs: seq<GState>, ev: Input, at: Point, k: nat, i: nat)
    requires k <= |gs| && i < |gs| && !StepPrefix(gs, ev, at, k).fault
    ensures i < k ==> Step(gs[i], ev, at).Ok? && StepPrefix(gs, ev, at, k).gs[i] == Step(gs[i], ev, at).value.g
    ensures k <= i ==> StepPrefix(gs, ev, at, k).gs[i] == gs[i]
    decreases k
  {
    if k > 0 {
      var b := StepPrefix(gs, ev, at, k - 1);
      assert !b.fault;
      StepPrefixEach(gs, ev, at, k - 1, k - 1);
      var r := Step(gs[k - 1], ev, at);
      assert Advance(b, ev, at, k - 1) == StepPrefix(gs, ev, at, k);
      assert r.Ok?;
      if i != k - 1 {
        StepPrefixEach(gs, ev, at, k - 1, i);
      }
    }
  }

  predicate Focused(g: GState)
  {
    g.kind == STRING && g.state == 1
  }

  /** The order TAB walks the gadgets in: the list, or with shift the list
    * reversed. */
  function Order(n: nat, shift: bool): (o: seq<nat>)
    ensures |o| == n && forall k | 0 <= k < n :: o[k] == if shift then n - 1 - k else k
  {
    seq(n, k requires 0 <= k < n => if shift then n - 1 - k else k)
  }

  predicate InRange(order: seq<nat>, n: nat)
  {
    forall t | 0 <= t < |order| :: order[t] < n
  }

  predicate Distinct(order: seq<nat>)
  {
    forall t, u | 0 <= t < u < |order| :: order[t] != order[u]
  }

  /** The TAB loop from position k of the order: the first focused string
    * field loses the focus and the next string field gains it, with the
    * cursor at the end of its text. */
  function TabFrom(gs: seq<GState>, order: seq<nat>, k: nat, found: bool): (r: seq<GState>)
    requires k <= |order| && InRange(order, |gs|)
    ensures |r| == |gs|
    decreases |order| - k
  {
    if k == |order| then gs
    else
      var i := order[k];
      var g := gs[i];
      if g.kind != STRING then TabFrom(gs, order, k + 1, found)
      else if !found && g.state == 1 then TabFrom(gs[i := g.(state := 0)], order, k + 1, true)
      else if found then gs[i := g.(state := 1, pos := |g.text|, redraw := true)]
      else TabFrom(gs, order, k + 1, found)
  }

  function TabFocus(gs: seq<GState>, shift: bool): seq<GState>
  {
    TabFrom(gs, Order(|gs|, shift), 0, false)
  }

  /** The first position at or after k whose gadget is a string field, or
    * the end of the order. */
  function NextString(gs: seq<GState>, order: seq<nat>, k: nat): (t: nat)
    requires k <= |order| && InRange(order, |gs|)
    ensures k <= t <= |order|
    ensures forall u | k <= u < t :: gs[order[u]].kind != STRING
    ensures t < |order| ==> gs[order[t]].kind == STRING
    decreases |order| - k
  {
    if k == |order| || gs[order[k]].kind == STRING then k else NextString(gs, order, k + 1)
  }

  /** The focus given to the string field at position t of the order. */
  function Gain(gs: seq<GState>, order: seq<nat>, t: nat): seq<GState>
    requires InRange(order, |gs|)
  {
    if t < |order| then
      var g := gs[order[t]];
      gs[order[t] := g.(state := 1, pos := |g.text|, redraw := true)]
    else gs
  }

  lemma {:induction false} TabFound(gs: seq<GState>, order: seq<nat>, k: nat)
    requires k <= |order| && InRange(order, |gs|)
    ensures TabFrom(gs, order, k, true) == Gain(gs, order, NextString(gs, order, k))
    decreases |order| - k
  {
    if k < |order| && gs[order[k]].kind != STRING {
      TabFound(gs, order, k + 1);
    }
  }

  lemma {:induction false} TabSearch(gs: seq<GState>, order: seq<nat>, k: nat, a: nat)
    requires k <= a <= |order| && InRange(order, |gs|)
    requires forall t | k <= t < a :: !Focused(gs[order[t]])
    ensures TabFrom(gs, order, k, false) == TabFrom(gs, order, a, false)
    decreases a - k
  {
    if k < a {
      TabSearch(gs, order, k + 1, a);
    }
  }

  lemma {:induction false} NextStringKinds(gs: seq<GState>, hs: seq<GState>, order: seq<nat>, k: nat)
    requires |gs| == |hs| && k <= |order| && InRange(order, |gs|)
    requires forall i | 0 <= i < |gs| :: gs[i].kind == hs[i].kind
    ensures NextString(gs, order, k) == NextString(hs, order, k)
    decreases |order| - k
  {
    if k < |order| && gs[order[k]].kind != STRING {
      NextStringKinds(gs, hs, order, k + 1);
    }
  }

  /** TAB with a focused string field: the first one in TAB order loses the
    * focus; the next string field after it, if there is one, gains it with
    * its cursor at the end of its text; nothing else changes. There is no
    * wrap-around: TAB from the last string field leaves none focused. */
  lemma {:induction false} TabMovesFocus(gs: seq<GState>, order: seq<nat>, a: nat)
    requires InRange(order, |gs|) && Distinct(order)
    requires a < |order| && Focused(gs[order[a]])
    requires forall t | 0 <= t < a :: !Focused(gs[order[t]])
    ensures var lost := gs[order[a] := gs[order[a]].(state := 0)];
            TabFrom(gs, order, 0, false) == Gain(lost, order, NextString(gs, order, a + 1))
    ensures NextString(gs, order, a + 1) < |order| ==> order[NextString(gs, order, a + 1)] != order[a]
  {
    var lost := gs[order[a] := gs[order[a]].(state := 0)];
    TabSearch(gs, order, 0, a);
    assert TabFrom(gs, order, a, false) == TabFrom(lost, order, a + 1, true);
    TabFound(lost, order, a + 1);
    NextStringKinds(gs, lost, order, a + 1);
  }

  /** TAB with no focused string field changes nothing. */
  lemma {:induction false} TabNoFocus(gs: seq<GState>, order: seq<nat>)
    requires InRange(order, |gs|)
    requires forall t | 0 <= t < |order| :: !Focused(gs[order[t]])
    ensures TabFrom(gs, order, 0, false) == gs
  {
    TabSearch(gs, order, 0, |order|);
  }

  /** Both TAB orders visit every gadget exactly once. */
  lemma {:induction false} OrderValid(n: nat, shift: bool)
    ensures InRange(Order(n, shift), n) && Distinct(Order(n, shift))
  {
  }

  class Requestor {
    var title: string
    var rect: Rect
    var gadgets: seq<Gadget>

    /** The gadgets are distinct objects. */
    ghost predicate Valid()
      reads this
    {
      forall i, j | 0 <= i < j < |gadgets| :: gadgets[i] != gadgets[j]
    }

    ghost function Snaps(): (s: seq<GState>)
      reads this, gadgets
      ensures |s| == |gadgets| && forall i | 0 <= i < |gadgets| :: s[i] == gadgets[i].Snap()
    {
      seq(|gadgets|, i reads this, gadgets requires 0 <= i < |gadgets| => gadgets[i].Snap())
    }

    /** __init__ (gadget.py:558-578) for a requester whose font has line
      * height fonty: a titled requester starts with the title gadget, a
      * LABEL over its top edge. */
    constructor (title: string, rect: Rect, fonty: int)
      ensures this.title == title && this.rect == rect && Valid()
      ensures title == "" ==> gadgets == []
      ensures title != "" ==> |gadgets| == 1 && fresh(gadgets[0]) &&
                              gadgets[0].Snap() == GState(LABEL, Rect(rect.x - 2, rect.y - 2, rect.w + 1, fonty),
                                                          Rect(rect.x - 2, rect.y - 2, rect.w + 1, fonty), 0, 0, 0, "", 0, true, true) &&
                              gadgets[0].id == "__reqtitle"
    {
      this.title := title;
      this.rect := rect;
      if title != "" {
        var t := new Gadget(LABEL, "", Rect(rect.x - 2, rect.y - 2, rect.w + 1, fonty), None, None, None, Some("__reqtitle"), true);
        gadgets := [t];
      } else {
        gadgets := [];
      }
    }

    /** add: the gadget goes to the end of the list. */
    method Add(g: Gadget)
      modifies this
      ensures gadgets == old(gadgets) + [g] && title == old(title) && rect == old(rect)
    {
      gadgets := gadgets + [g];
    }

    /** process_event: the gadgets end as Dispatch makes them and the events
      * are the ones it reports; a gadget that raises ends the call with an
      * error after the gadgets before it have been updated. */
    method ProcessEvent(ev: Input, at: Point) returns (r: Result<seq<GadgetEvent>, Fault>)
      requires Valid()
      modifies gadgets
      ensures var d := Dispatch(old(Snaps()), ev, at);
              Snaps() == d.gs && r == if d.fault then Err(ZeroDivisionError) else Ok(d.events)
    {
      var evs, failed := RunGadgets(ev, at);
      if failed {
        return Err(ZeroDivisionError);
      }
      if ev.KeyPress? && ev.key == Tab {
        TabCycle(ev.shift);
      }
      r := Ok(evs);
    }

    /** The loop over the gadgets. */
    method RunGadgets(ev: Input, at: Point) returns (evs: seq<GadgetEvent>, failed: bool)
      requires Valid()
      modifies gadgets
      ensures var b := StepPrefix(old(Snaps()), ev, at, |gadgets|);
              Snaps() == b.gs && failed == b.fault && (!failed ==> evs == b.events)
    {
      ghost var gs0 := Snaps();
      evs, failed := [], false;
      var i := 0;
      while i < |gadgets| && !failed
        invariant 0 <= i <= |gadgets|
        invariant !failed ==> Ran(gs0, ev, at, i, evs)
        invariant failed ==> Snaps() == StepPrefix(gs0, ev, at, i).gs && StepPrefix(gs0, ev, at, i).fault
      {
        evs, failed := StepGadget(gs0, ev, at, i, evs);
        i := i + 1;
      }
      if failed {
        FaultSticks(gs0, ev, at, i, |gadgets|);
      }
    }

    /** The first i gadgets have processed the event without raising,
      * reporting evs. */
    ghost predicate Ran(gs0: seq<GState>, ev: Input, at: Point, i: nat, evs: seq<GadgetEvent>)
      reads this, gadgets
    {
      i <= |gs0| && !StepPrefix(gs0, ev, at, i).fault &&
      Snaps() == StepPrefix(gs0, ev, at, i).gs && evs == StepPrefix(gs0, ev, at, i).events
    }

    /** One turn of the dispatch loop: gadget i processes the event. */
    method StepGadget(ghost gs0: seq<GState>, ev: Input, at: Point, i: nat, evs: seq<GadgetEvent>)
      returns (evs': seq<GadgetEvent>, failed: bool)
      requires Valid() && i < |gadgets| == |gs0|
      requires Ran(gs0, ev, at, i, evs)
      modifies gadgets
      ensures Snaps() == StepPrefix(gs0, ev, at, i + 1).gs && failed == StepPrefix(gs0, ev, at, i + 1).fault
      ensures !failed ==> Ran(gs0, ev, at, i + 1, evs')
    {
      ghost var before := Snaps();
      var e := gadgets[i].ProcessEvent(ev, at);
      UpdatedAt(before, i, gadgets[i].Snap());
      if e.Err? {
        return evs, true;
      }
      evs', failed := evs + Tagged(e.value, i), false;
    }

    /** The gadget list after gadget i alone has changed to h. */
    lemma UpdatedAt(before: seq<GState>, i: nat, h: GState)
      requires Valid() && |before| == |gadgets| && i < |gadgets| && gadgets[i].Snap() == h
      requires forall j | 0 <= j < |gadgets| && j != i :: gadgets[j].Snap() == before[j]
      ensures Snaps() == before[i := h]
    {
    }

    /** The TAB walk of process_event (gadget.py:605-621). */
    method TabCycle(shift: bool)
      requires Valid()
      modifies gadgets
      ensures Snaps() == TabFocus(old(Snaps()), shift)
    {
      ghost var gs0 := Snaps();
      var n := |gadgets|;
      ghost var order := Order(n, shift);
      var found := false;
      var k := 0;
      while k < n
        invariant 0 <= k <= n
        invariant TabFrom(Snaps(), order, k, found) == TabFrom(gs0, order, 0, false)
      {
        var stop;
        found, stop := TabVisit(order, shift, k, found);
        if stop {
          return;
        }
        k := k + 1;
      }
    }

    /** One turn of the TAB walk, at position k of the order. */
    method TabVisit(ghost order: seq<nat>, shift: bool, k: nat, found: bool) returns (found': bool, stop: bool)
      requires Valid() && k < |gadgets| && order == Order(|gadgets|, shift)
      modifies gadgets
      ensures stop ==> Snaps() == TabFrom(old(Snaps()), order, k, found)
      ensures !stop ==> TabFrom(Snaps(), order, k + 1, found') == TabFrom(old(Snaps()), order, k, found)
    {
      var n := |gadgets|;
      var i := if shift then n - 1 - k else k;
      var g := gadgets[i];
      ghost var before := Snaps();
      found', stop := found, false;
      if g.kind == STRING {
        if !found && g.state == 1 {
          found' := true;
          g.state := 0;
          UpdatedAt(before, i, before[i].(state := 0));
        } else if found {
          g.state := 1;
          g.pos := |g.text|;
          g.redraw := true;
          UpdatedAt(before, i, before[i].(state := 1, pos := |before[i].text|, redraw := true));
          stop := true;
        }
      }
    }
  }
}
