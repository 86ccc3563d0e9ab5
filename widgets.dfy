/** The immediate-mode UI of holy-engine-base and holy-mm: hit-testing,
    buttons and sliders arbitrated by one "active element" token, and the
    left-button flags the mouse callback and the frame loop maintain.

    Each widget is a function from the pointer state (cursor, pressed and
    released flags, token) to its effect; the App classes call them. A UI
    pass runs a list of widgets in order, threading the token.

    Both programs empty the token in the release callback, before the UI
    pass of the release frame. With the engine's gated button (a click needs
    the token) that means no engine button can ever click:
    AsWrittenEngineNeverClicks proves it. The Corrected* functions move the
    clearing to the end of the frame, after the UI pass, and
    CorrectedPressThenReleaseClicks proves that a press and a release over
    a button then click it. */
module Widgets {
  import opened Vectors

  /** A screen rectangle, top-left corner plus extent, in pixels. */
  datatype Rect = Rect(x: real, y: real, width: real, height: real)

  /** isMouseOver: inclusive on all four edges. */
  predicate IsMouseOver(mx: real, my: real, r: Rect) {
    mx >= r.x && mx <= r.x + r.width && my >= r.y && my <= r.y + r.height
  }

  /** The UI's view of the mouse: cursor position, the left button's
      pressed and released-this-frame flags, and the active-element token
      ("" when no widget holds it). */
  datatype Pointer = Pointer(x: real, y: real, pressed: bool, released: bool, active: string)

  /** The state both programs start in. */
  const Idle: Pointer := Pointer(0.0, 0.0, false, false, "")

  /** A left-button or cursor event, as the callbacks receive it. */
  datatype PointerEvent = Move(mx: real, my: real) | Press | Release

  /** The mouse callbacks as written: a release also empties the token. */
  function OnEvent(p: Pointer, e: PointerEvent): Pointer {
    match e
    case Move(mx, my) => p.(x := mx, y := my)
    case Press => p.(pressed := true, released := false)
    case Release => p.(pressed := false, released := true, active := "")
  }

  function OnEvents(p: Pointer, es: seq<PointerEvent>): Pointer
    decreases |es|
  {
    if es == [] then p else OnEvents(OnEvent(p, es[0]), es[1..])
  }

  /** The main loop's last statement: the released flag lasts one frame. */
  function EndFrame(p: Pointer): Pointer {
    p.(released := false)
  }

  /** What a button does to the token and whether it reports a click. */
  datatype ButtonResult = ButtonResult(active: string, clicked: bool)

  /** handleButton of holy-engine-base. */
  function EngineButton(p: Pointer, r: Rect, name: string): (b: ButtonResult)
    // a press over the button takes the token, whoever held it
    ensures IsMouseOver(p.x, p.y, r) && p.pressed ==> b.active == name
    ensures !(IsMouseOver(p.x, p.y, r) && p.pressed) ==> b.active == p.active
    // a click needs the hover, the release and the token
    ensures b.clicked <==> IsMouseOver(p.x, p.y, r) && p.released && b.active == name
  {
    var over := IsMouseOver(p.x, p.y, r);
    var active := if over && p.pressed then name else p.active;
    ButtonResult(active, over && p.released && active == name)
  }

  /** handleButton of holy-mm: no token involved at all. */
  function MmButton(p: Pointer, r: Rect): (clicked: bool)
    ensures clicked ==> p.released
  {
    IsMouseOver(p.x, p.y, r) && p.released
  }

  function Clamp(v: real, lo: real, hi: real): (r: real)
    requires lo <= hi
    ensures lo <= r <= hi
    ensures lo <= v <= hi ==> r == v
    ensures v < lo ==> r == lo
    ensures v > hi ==> r == hi
  {
    if v < lo then lo else if v > hi then hi else v
  }

  /** What a slider does to the token, to its value and where it puts the knob. */
  datatype SliderResult = SliderResult(active: string, value: real, knobX: real)

  /** handleSlider (the same in both programs). The knob is drawn from the
      value the frame starts with; the value follows the cursor while the
      slider holds the token; the token is claimed after both, and only when
      nobody holds it. */
  function Slider(p: Pointer, r: Rect, id: string, value: real, lo: real, hi: real): (s: SliderResult)
    requires lo < hi && r.width > 0.0
    // the knob stays on the track
    ensures r.x <= s.knobX && (s.knobX == r.x || s.knobX <= r.x + r.width - r.height)
    // only the token holder moves the value, and always into [lo, hi]
    ensures p.active != id ==> s.value == value
    ensures p.active == id ==> lo <= s.value <= hi
    // on the track the value is linear in the cursor, beyond it saturated
    ensures p.active == id && r.x <= p.x <= r.x + r.width ==>
      s.value == lo + (p.x - r.x) / r.width * (hi - lo)
    ensures p.active == id && p.x <= r.x ==> s.value == lo
    ensures p.active == id && p.x >= r.x + r.width ==> s.value == hi
    // claim-when-empty: the token changes only from "" to this slider's id
    ensures s.active != p.active ==> p.active == "" && s.active == id
    ensures IsMouseOver(p.x, p.y, r) && p.pressed && p.active == "" ==> s.active == id
  {
    var over := IsMouseOver(p.x, p.y, r);
    var knob := r.x + (value - lo) / (hi - lo) * r.width - r.height / 2.0;
    var knobX := Max(r.x, Min(r.x + r.width - r.height, knob));
    var newValue := if p.active == id then DragValue(p.x, r, lo, hi) else value;
    var active := if over && p.pressed && p.active == "" then id else p.active;
    SliderResult(active, newValue, knobX)
  }

  function Max(a: real, b: real): real { if a >= b then a else b }

  function Min(a: real, b: real): real { if a <= b then a else b }

  /** The dragged value: the cursor's fraction of the track, mapped to
      [lo, hi] and clamped. */
  function DragValue(mx: real, r: Rect, lo: real, hi: real): (v: real)
    requires lo < hi && r.width > 0.0
    ensures lo <= v <= hi
    ensures r.x <= mx <= r.x + r.width ==> v == lo + (mx - r.x) / r.width * (hi - lo)
    ensures mx <= r.x ==> v == lo
    ensures mx >= r.x + r.width ==> v == hi
  {
    var t := (mx - r.x) / r.width;
    var raw := lo + t * (hi - lo);
    FractionBounds(mx - r.x, r.width);
    ScaleBounds(t, hi - lo);
    Clamp(raw, lo, hi)
  }

  lemma FractionBounds(a: real, w: real)
    requires w > 0.0
    ensures a <= 0.0 ==> a / w <= 0.0
    ensures 0.0 <= a <= w ==> 0.0 <= a / w <= 1.0
    ensures a >= w ==> a / w >= 1.0
  {
    var t := a / w;
    assert t * w == a;
    if t < 0.0 {
      assert a < 0.0 by { NegPos(t, w); }
    }
    if t > 1.0 {
      assert (t - 1.0) * w > 0.0 by { PosPos(t - 1.0, w); }
    }
    if 0.0 < t {
      assert a > 0.0 by { PosPos(t, w); }
    }
    if t < 1.0 {
      assert (1.0 - t) * w > 0.0 by { PosPos(1.0 - t, w); }
    }
  }

  lemma ScaleBounds(t: real, d: real)
    requires d > 0.0
    ensures t <= 0.0 ==> t * d <= 0.0
    ensures 0.0 <= t <= 1.0 ==> 0.0 <= t * d <= d
    ensures t >= 1.0 ==> t * d >= d
  {
    if t < 0.0 { NegPos(t, d); }
    if 0.0 < t { PosPos(t, d); }
    if t < 1.0 { PosPos(1.0 - t, d); }
    if t > 1.0 { PosPos(t - 1.0, d); }
  }

  lemma PosPos(a: real, b: real)
    requires a > 0.0 && b > 0.0
    ensures a * b > 0.0
  {}

  lemma NegPos(a: real, b: real)
    requires a < 0.0 && b > 0.0
    ensures a * b < 0.0
  {}

  /** One widget of a UI pass. */
  datatype Widget =
    | ButtonWidget(rect: Rect, name: string)
    | SliderWidget(rect: Rect, id: string, value: real, lo: real, hi: real)

  /** What a widget of the pass reports: a click, or a slider's new value. */
  datatype Output = Clicked(clicked: bool) | Value(value: real)

  predicate WellFormed(w: Widget) {
    w.SliderWidget? ==> w.lo < w.hi && w.rect.width > 0.0
  }

  /** One widget of a pass: the token it leaves and what it reports. */
  function WidgetStep(p: Pointer, w: Widget, gated: bool): (string, Output)
    requires WellFormed(w)
  {
    match w
    case ButtonWidget(r, name) =>
      if gated then
        var b := EngineButton(p, r, name);
        (b.active, Clicked(b.clicked))
      else (p.active, Clicked(MmButton(p, r)))
    case SliderWidget(r, id, v, lo, hi) =>
      var s := Slider(p, r, id, v, lo, hi);
      (s.active, Value(s.value))
  }

  /** A UI pass with gated buttons when `gated` (the engine) or ungated
      ones (holy-mm): the token after the pass and each widget's output. */
  function Pass(p: Pointer, ws: seq<Widget>, gated: bool): (r: (string, seq<Output>))
    requires forall k :: 0 <= k < |ws| ==> WellFormed(ws[k])
    ensures |r.1| == |ws|
    decreases |ws|
  {
    if ws == [] then (p.active, [])
    else
      var s := WidgetStep(p, ws[0], gated);
      var rest := Pass(p.(active := s.0), ws[1..], gated);
      (rest.0, [s.1] + rest.1)
  }

  /** After the callbacks of a frame: a release implies the button is up
      and, with the token emptied on release, that no widget holds it. */
  predicate Settled(p: Pointer) {
    p.released ==> !p.pressed && p.active == ""
  }

  lemma {:induction false} OnEventsSettled(p: Pointer, es: seq<PointerEvent>)
    requires Settled(p)
    ensures Settled(OnEvents(p, es))
    decreases |es|
  {
    if es != [] {
      OnEventsSettled(OnEvent(p, es[0]), es[1..]);
    }
  }

  /** In a settled state the engine's pass keeps the token where it is and
      reports no click of a button with a non-empty name. */
  lemma {:induction false} SettledPassNoClick(p: Pointer, ws: seq<Widget>)
    requires Settled(p)
    requires forall k :: 0 <= k < |ws| ==> WellFormed(ws[k])
    requires forall k :: 0 <= k < |ws| ==> ws[k].ButtonWidget? ==> ws[k].name != ""
    ensures p.released ==> Pass(p, ws, true).0 == ""
    ensures forall k :: 0 <= k < |ws| ==> Pass(p, ws, true).1[k] != Clicked(true)
    decreases |ws|
  {
    if ws != [] {
      var w := ws[0];
      var active := WidgetStep(p, w, true).0;
      assert p.released ==> active == "";
      var q := p.(active := active);
      SettledPassNoClick(q, ws[1..]);
      var rest := Pass(q, ws[1..], true);
      assert Pass(p, ws, true).1 == [Pass(p, ws, true).1[0]] + rest.1;
      forall k | 1 <= k < |ws|
        ensures Pass(p, ws, true).1[k] != Clicked(true)
      {
        assert Pass(p, ws, true).1[k] == rest.1[k - 1];
      }
    }
  }

  /** As written, no engine button ever clicks: whatever events arrive in a
      frame, a frame with a release has an empty token during the UI pass,
      and a button needs the token (holy-engine-base/main.go:308, 881). */
  lemma AsWrittenEngineNeverClicks(p: Pointer, es: seq<PointerEvent>, ws: seq<Widget>)
    requires !p.released
    requires forall k :: 0 <= k < |ws| ==> WellFormed(ws[k])
    requires forall k :: 0 <= k < |ws| ==> ws[k].ButtonWidget? ==> ws[k].name != ""
    ensures forall k :: 0 <= k < |ws| ==> Pass(OnEvents(p, es), ws, true).1[k] != Clicked(true)
  {
    OnEventsSettled(p, es);
    SettledPassNoClick(OnEvents(p, es), ws);
  }

  /** The intended callbacks: a release keeps the token for the UI pass. */
  function CorrectedOnEvent(p: Pointer, e: PointerEvent): Pointer {
    match e
    case Move(mx, my) => p.(x := mx, y := my)
    case Press => p.(pressed := true, released := false)
    case Release => p.(pressed := false, released := true)
  }

  function CorrectedOnEvents(p: Pointer, es: seq<PointerEvent>): Pointer
    decreases |es|
  {
    if es == [] then p else CorrectedOnEvents(CorrectedOnEvent(p, es[0]), es[1..])
  }

  /** The intended end of frame: after the UI pass of a release frame the
      token is freed, and the released flag lasts one frame. */
  function CorrectedEndFrame(p: Pointer): (q: Pointer)
    ensures !q.released
    ensures p.released ==> q.active == ""
    ensures !p.released ==> q.active == p.active
  {
    p.(released := false, active := if p.released then "" else p.active)
  }

  /** One frame of the corrected loop: callbacks, UI pass, end of frame. */
  function CorrectedFrame(p: Pointer, es: seq<PointerEvent>, ws: seq<Widget>): (r: (Pointer, seq<Output>))
    requires forall k :: 0 <= k < |ws| ==> WellFormed(ws[k])
  {
    var q := CorrectedOnEvents(p, es);
    var (active, out) := Pass(q, ws, true);
    (CorrectedEndFrame(q.(active := active)), out)
  }

  /** With the correction, pressing over a button in one frame and
      releasing over it in the next clicks it, and frees the token. */
  lemma CorrectedPressThenReleaseClicks(p: Pointer, r: Rect, name: string)
    requires !p.released && !p.pressed && p.active == ""
    requires IsMouseOver(p.x, p.y, r)
    ensures var (p1, out1) := CorrectedFrame(p, [Press], [ButtonWidget(r, name)]);
      out1 == [Clicked(false)] && p1.active == name &&
      var (p2, out2) := CorrectedFrame(p1, [Release], [ButtonWidget(r, name)]);
      out2 == [Clicked(true)] && p2.active == ""
  {
    var ws := [ButtonWidget(r, name)];
    var q := CorrectedOnEvents(p, [Press]);
    assert [Press][1..] == [];
    assert q == p.(pressed := true, released := false);
    assert WidgetStep(q, ws[0], true) == (name, Clicked(false));
    PassOne(q, ws[0], true);
    var p1 := CorrectedFrame(p, [Press], ws).0;
    assert p1 == q.(active := name);
    var q2 := CorrectedOnEvents(p1, [Release]);
    assert [Release][1..] == [];
    assert q2 == p1.(pressed := false, released := true);
    assert WidgetStep(q2, ws[0], true) == (name, Clicked(true));
    PassOne(q2, ws[0], true);
  }

  /** With the correction a click still needs the token: dragging onto a
      button that somebody else pressed does not click it. */
  lemma CorrectedNoDragOnClick(p: Pointer, r: Rect, name: string, other: string)
    requires !p.released && p.active == other && other != name
    requires IsMouseOver(p.x, p.y, r)
    ensures CorrectedFrame(p, [Release], [ButtonWidget(r, name)]).1 == [Clicked(false)]
  {
    var q := CorrectedOnEvents(p, [Release]);
    assert [Release][1..] == [];
    assert q == p.(pressed := false, released := true);
    PassOne(q, ButtonWidget(r, name), true);
  }

  /** A pressed engine button takes the token from a slider being dragged,
      so a slider later in the same pass stops following the cursor. */
  lemma ButtonStealsToken(p: Pointer, br: Rect, name: string,
                          sr: Rect, id: string, v: real, lo: real, hi: real)
    requires p.pressed && p.active == id && name != id && name != ""
    requires IsMouseOver(p.x, p.y, br)
    requires lo < hi && sr.width > 0.0
    ensures var (active, out) := Pass(p, [ButtonWidget(br, name), SliderWidget(sr, id, v, lo, hi)], true);
      active == name && out[1] == Value(v)
  {
    var ws := [ButtonWidget(br, name), SliderWidget(sr, id, v, lo, hi)];
    assert ws[1..] == [SliderWidget(sr, id, v, lo, hi)];
    assert WidgetStep(p, ws[0], true).0 == name;
    var q := p.(active := name);
    PassOne(q, ws[1], true);
    assert Slider(q, sr, id, v, lo, hi).active == name;
    assert Slider(q, sr, id, v, lo, hi).value == v;
    var rest := Pass(q, ws[1..], true);
    assert rest == (name, [Value(v)]);
    assert Pass(p, ws, true) == (name, [WidgetStep(p, ws[0], true).1] + [Value(v)]);
  }

  /** Sliders never take the token from each other: with the token empty
      and the cursor over two sliders, the first one in the pass wins. */
  lemma FirstSliderWins(p: Pointer, r1: Rect, id1: string, v1: real,
                        r2: Rect, id2: string, v2: real, lo: real, hi: real)
    requires p.pressed && p.active == "" && id1 != ""
    requires IsMouseOver(p.x, p.y, r1) && IsMouseOver(p.x, p.y, r2)
    requires lo < hi && r1.width > 0.0 && r2.width > 0.0
    ensures Pass(p, [SliderWidget(r1, id1, v1, lo, hi), SliderWidget(r2, id2, v2, lo, hi)], true).0 == id1
  {
    var ws := [SliderWidget(r1, id1, v1, lo, hi), SliderWidget(r2, id2, v2, lo, hi)];
    assert ws[1..] == [SliderWidget(r2, id2, v2, lo, hi)];
    assert WidgetStep(p, ws[0], true).0 == id1;
    PassOne(p.(active := id1), ws[1], true);
  }

  /** A pass over one widget is that widget's step. */
  lemma PassOne(p: Pointer, w: Widget, gated: bool)
    requires WellFormed(w)
    ensures Pass(p, [w], gated) == (WidgetStep(p, w, gated).0, [WidgetStep(p, w, gated).1])
  {
    var s := WidgetStep(p, w, gated);
    assert [w][1..] == [];
    assert Pass(p.(active := s.0), [], gated) == (s.0, []);
    assert [s.1] + [] == [s.1];
  }

  /** holy-mm's ungated buttons click on any release over them, even in the
      release frame as written and even when another widget was pressed
      (holy-mm/main.go:588-592). */
  lemma MmReleaseOverClicks(p: Pointer, mx: real, my: real, r: Rect, name: string)
    requires IsMouseOver(mx, my, r)
    ensures Pass(OnEvents(p, [Move(mx, my), Release]), [ButtonWidget(r, name)], false).1 == [Clicked(true)]
  {
    var es := [Move(mx, my), Release];
    var q := OnEvents(p, es);
    assert es[1..] == [Release];
    assert [Release][1..] == [];
    var m := OnEvent(p, Move(mx, my));
    assert m == p.(x := mx, y := my);
    assert q == OnEvents(m, [Release]);
    assert OnEvents(m, [Release]) == OnEvent(m, Release);
    PassOne(OnEvents(p, [Move(mx, my), Release]), ButtonWidget(r, name), false);
    assert q == p.(x := mx, y := my, pressed := false, released := true, active := "");
  }

  /** ... and never click in a frame without a release. */
  lemma MmNoReleaseNoClick(p: Pointer, ws: seq<Widget>, k: nat)
    requires !p.released && k < |ws|
    requires forall j :: 0 <= j < |ws| ==> WellFormed(ws[j])
    ensures Pass(p, ws, false).1[k] != Clicked(true)
    decreases k
  {
    if k > 0 {
      var active := WidgetStep(p, ws[0], false).0;
      MmNoReleaseNoClick(p.(active := active), ws[1..], k - 1);
    }
  }

  // ---------------------------------------------------------------------
  // The layout constants and the properties panel's slider column, the
  // same in both programs

  const UiPanelWidth: real := 250.0
  const UiPadding: real := 10.0
  const UiButtonHeight: real := 30.0
  const UiSliderHeight: real := 20.0
  const UiElementSpacing: real := 5.0

  /** The properties panel's controls sit UiPanelWidth + UiPadding in from the right edge. */
  function PanelX(width: nat): real {
    width as real - UiPanelWidth - UiPadding + UiPadding
  }

  function SliderRect(width: nat, y: real): Rect {
    Rect(PanelX(width), y, UiPanelWidth - UiPadding * 2.0, UiSliderHeight)
  }

  /** The slider IDs of a vector: prefix_x, prefix_y, prefix_z. */
  function AxisId(prefix: string, i: nat): string
    requires i < 3
  {
    prefix + (if i == 0 then "_x" else if i == 1 then "_y" else "_z")
  }

  lemma AxisIdsDistinct(prefix: string, i: nat, j: nat)
    requires i < 3 && j < 3
    ensures AxisId(prefix, i) != ""
    ensures AxisId(prefix, i) == AxisId(prefix, j) <==> i == j
  {
    var a, b := AxisId(prefix, i), AxisId(prefix, j);
    assert a[|a| - 1] == (if i == 0 then 'x' else if i == 1 then 'y' else 'z');
    assert b[|b| - 1] == (if j == 0 then 'x' else if j == 1 then 'y' else 'z');
  }

  /** Sliders i, i + 1, ... of a vector's three, 30 units apart from `top`,
      each editing one component. Only the slider that holds the token when
      its turn comes moves its component, and always into [lo, hi]; so a
      component changes only when its own slider held the token at the
      start, and the token changes only from empty to one of the three. */
  function SlidersFrom(p: Pointer, width: nat, top: real, prefix: string, v: Vec3, lo: real, hi: real, i: nat):
    (r: (string, Vec3))
    requires lo < hi && i <= 3
    ensures forall j :: 0 <= j < i ==> r.1.At(j) == v.At(j)
    ensures forall j :: i <= j < 3 ==>
      r.1.At(j) == v.At(j) || (p.active == AxisId(prefix, j) && lo <= r.1.At(j) <= hi)
    ensures r.0 == p.active || (p.active == "" && exists j :: i <= j < 3 && r.0 == AxisId(prefix, j))
    decreases 3 - i
  {
    if i == 3 then (p.active, v)
    else
      var s := Slider(p, SliderRect(width, top + 30.0 * i as real), AxisId(prefix, i), v.At(i), lo, hi);
      var r := SlidersFrom(p.(active := s.active), width, top, prefix, v.With(i, s.value), lo, hi, i + 1);
      forall j | i < j < 3
        ensures AxisId(prefix, i) != AxisId(prefix, j)
      {
        AxisIdsDistinct(prefix, i, j);
      }
      AxisIdsDistinct(prefix, i, i);
      r
  }

  /** The three sliders of a vector. */
  function VectorSliders(p: Pointer, width: nat, top: real, prefix: string, v: Vec3, lo: real, hi: real): (string, Vec3)
    requires lo < hi
  {
    SlidersFrom(p, width, top, prefix, v, lo, hi, 0)
  }
}
