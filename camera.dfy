/** The fly camera and key handling the three programs share: mouse-look
    with the pitch clamp, WASD movement, the debounced (rising-edge) key
    toggles, and the pixel-to-NDC mapping of the engine's picking ray.
    Trigonometry and normalisation are not modelled; the callers take them
    as given functions. */
module Camera {
  import opened Vectors

  /** Degrees of yaw or pitch per pixel of mouse travel. */
  const MouseSensitivity: real := 0.1
  const PitchLimit: real := 89.0
  /** Base camera speed, units per second. */
  const CameraSpeed: real := 5.0
  /** math.Pi as a float64 literal; mgl32.DegToRad multiplies by it. */
  const Pi: real := 3.141592653589793

  function DegToRad(d: real): real { d * Pi / 180.0 }

  /** The clamp after every mouse-look update. */
  function ClampPitch(p: real): (r: real)
    ensures -PitchLimit <= r <= PitchLimit
    ensures -PitchLimit <= p <= PitchLimit ==> r == p
    ensures p > PitchLimit ==> r == PitchLimit
    ensures p < -PitchLimit ==> r == -PitchLimit
  {
    if p > PitchLimit then PitchLimit else if p < -PitchLimit then -PitchLimit else p
  }

  /** Yaw and pitch in degrees, and the last cursor sample. */
  datatype Look = Look(yaw: real, pitch: real, lastX: real, lastY: real)

  /** One mouse-look update. On the first sample after a reset the cursor
      is only recorded, so the offsets are zero; screen y grows downwards,
      so moving the mouse up raises the pitch. */
  function LookStep(l: Look, first: bool, xpos: real, ypos: real): (r: Look)
    ensures r.lastX == xpos && r.lastY == ypos
    ensures -PitchLimit <= r.pitch <= PitchLimit
    ensures first ==> r.yaw == l.yaw && r.pitch == ClampPitch(l.pitch)
    ensures !first ==> r.yaw == l.yaw + (xpos - l.lastX) * MouseSensitivity
    ensures !first ==> r.pitch == ClampPitch(l.pitch + (l.lastY - ypos) * MouseSensitivity)
  {
    var lastX := if first then xpos else l.lastX;
    var lastY := if first then ypos else l.lastY;
    var xoffset := (xpos - lastX) * MouseSensitivity;
    var yoffset := (lastY - ypos) * MouseSensitivity;
    Look(l.yaw + xoffset, ClampPitch(l.pitch + yoffset), xpos, ypos)
  }

  /** A first sample leaves an in-range view where it was. */
  lemma FirstSampleStill(l: Look, xpos: real, ypos: real)
    requires -PitchLimit <= l.pitch <= PitchLimit
    ensures var r := LookStep(l, true, xpos, ypos); r.yaw == l.yaw && r.pitch == l.pitch
  {}

  /** Moving the mouse up never lowers the pitch, moving it down never
      raises it, and a still mouse keeps an in-range view. */
  lemma LookPitchDirection(l: Look, xpos: real, ypos: real)
    requires -PitchLimit <= l.pitch <= PitchLimit
    ensures ypos <= l.lastY ==> LookStep(l, false, xpos, ypos).pitch >= l.pitch
    ensures ypos >= l.lastY ==> LookStep(l, false, xpos, ypos).pitch <= l.pitch
    ensures xpos == l.lastX && ypos == l.lastY ==> LookStep(l, false, xpos, ypos) == l
  {}

  /** The speed of engine WASD movement: the base speed, doubled for Shift,
      then times five for Caps Lock. */
  function CurrentSpeed(shift: bool, capsLock: bool): (s: real)
    ensures s > 0.0
    ensures s == CameraSpeed * (if shift then 2.0 else 1.0) * (if capsLock then 5.0 else 1.0)
    ensures shift && capsLock ==> s == 10.0 * CameraSpeed
  {
    var base := if shift then CameraSpeed * 2.0 else CameraSpeed;
    if capsLock then base * 5.0 else base
  }

  /** The four movement keys, as level-triggered samples. */
  datatype MoveKeys = MoveKeys(forward: bool, back: bool, left: bool, right: bool)

  /** WASD movement: along the view direction and along the normalised
      right vector front x up, by `step` units (speed times frame time). */
  function Walk(pos: Vec3, front: Vec3, up: Vec3, step: real, keys: MoveKeys, normalize: Vec3 -> Vec3): Vec3 {
    var right := normalize(front.Cross(up));
    var p1 := if keys.forward then pos.Add(front.Mul(step)) else pos;
    var p2 := if keys.back then p1.Sub(front.Mul(step)) else p1;
    var p3 := if keys.left then p2.Sub(right.Mul(step)) else p2;
    if keys.right then p3.Add(right.Mul(step)) else p3
  }

  /** WASD movement as processInput applies it, one key test after another. */
  method WalkKeys(pos: Vec3, front: Vec3, up: Vec3, step: real, keys: MoveKeys, normalize: Vec3 -> Vec3) returns (p: Vec3)
    ensures p == Walk(pos, front, up, step, keys, normalize)
  {
    p := pos;
    if keys.forward {
      p := p.Add(front.Mul(step));
    }
    if keys.back {
      p := p.Sub(front.Mul(step));
    }
    if keys.left {
      var right := normalize(front.Cross(up));
      p := p.Sub(right.Mul(step));
    }
    if keys.right {
      var right := normalize(front.Cross(up));
      p := p.Add(right.Mul(step));
    }
  }

  /** Opposite keys cancel: with W and S both down or both up, and likewise
      A and D, the camera does not move. */
  lemma WalkOppositeKeysCancel(pos: Vec3, front: Vec3, up: Vec3, step: real, keys: MoveKeys, normalize: Vec3 -> Vec3)
    requires keys.forward == keys.back && keys.left == keys.right
    ensures Walk(pos, front, up, step, keys, normalize) == pos
  {}

  /** One debounced key: the toggled flag and the previous frame's sample. */
  datatype Toggle = Toggle(on: bool, wasPressed: bool)

  /** Once per frame: flip on a rising edge (down now, up in the previous
      frame), then remember the sample. */
  function ToggleStep(t: Toggle, down: bool): (r: Toggle)
    ensures r.wasPressed == down
    ensures r.on != t.on <==> down && !t.wasPressed
  {
    Toggle(if down && !t.wasPressed then !t.on else t.on, down)
  }

  /** A run of frames. */
  function ToggleRun(t: Toggle, samples: seq<bool>): Toggle
    decreases |samples|
  {
    if samples == [] then t else ToggleRun(ToggleStep(t, samples[0]), samples[1..])
  }

  /** The number of rising edges in a run of samples. */
  function RisingEdges(was: bool, samples: seq<bool>): nat
    decreases |samples|
  {
    if samples == [] then 0
    else (if samples[0] && !was then 1 else 0) + RisingEdges(samples[0], samples[1..])
  }

  /** Over any run of frames the flag flips exactly once per rising edge:
      it ends toggled iff the number of rising edges is odd. */
  lemma {:induction false} ToggleParity(t: Toggle, samples: seq<bool>)
    ensures ToggleRun(t, samples).on == (t.on != (RisingEdges(t.wasPressed, samples) % 2 == 1))
    ensures samples != [] ==> ToggleRun(t, samples).wasPressed == samples[|samples| - 1]
    decreases |samples|
  {
    if samples != [] {
      ToggleParity(ToggleStep(t, samples[0]), samples[1..]);
      if |samples| > 1 {
        assert samples[1..][|samples| - 2] == samples[|samples| - 1];
      }
    }
  }

  /** Holding a key down for any number of frames flips the flag at most once. */
  lemma {:induction false} HoldFlipsOnce(was: bool, samples: seq<bool>)
    requires forall k :: 0 <= k < |samples| ==> samples[k]
    ensures RisingEdges(was, samples) == if was || samples == [] then 0 else 1
    decreases |samples|
  {
    if samples != [] {
      HoldFlipsOnce(true, samples[1..]);
    }
  }

  /** getRayFromMouse: pixel coordinates (origin top-left) to normalised
      device coordinates, x to the right and y upwards. */
  function Ndc(mx: real, my: real, width: real, height: real): (real, real)
    requires width > 0.0 && height > 0.0
  {
    ((mx / width) * 2.0 - 1.0, 1.0 - (my / height) * 2.0)
  }

  /** The corners and the centre of the window. */
  lemma NdcLandmarks(width: real, height: real)
    requires width > 0.0 && height > 0.0
    ensures Ndc(0.0, 0.0, width, height) == (-1.0, 1.0)
    ensures Ndc(width, height, width, height) == (1.0, -1.0)
    ensures Ndc(width / 2.0, height / 2.0, width, height) == (0.0, 0.0)
  {
    assert width / width == 1.0 && height / height == 1.0;
    assert (width / 2.0) / width == 0.5;
    assert (height / 2.0) / height == 0.5;
  }

  /** A cursor inside the window maps into the NDC square, and only such a
      cursor does; y is flipped, x is not. */
  lemma NdcInsideIff(mx: real, my: real, width: real, height: real)
    requires width > 0.0 && height > 0.0
    ensures var (nx, ny) := Ndc(mx, my, width, height);
      (0.0 <= mx <= width <==> -1.0 <= nx <= 1.0) &&
      (0.0 <= my <= height <==> -1.0 <= ny <= 1.0)
  {
    UnitFraction(mx, width);
    UnitFraction(my, height);
  }

  /** Screen y and NDC y run in opposite directions; screen x and NDC x agree. */
  lemma NdcOrientation(mx1: real, my1: real, mx2: real, my2: real, width: real, height: real)
    requires width > 0.0 && height > 0.0
    requires mx1 <= mx2 && my1 <= my2
    ensures Ndc(mx1, my1, width, height).0 <= Ndc(mx2, my2, width, height).0
    ensures Ndc(mx1, my1, width, height).1 >= Ndc(mx2, my2, width, height).1
  {
    DivMonotone(mx1, mx2, width);
    DivMonotone(my1, my2, height);
  }

  lemma UnitFraction(a: real, w: real)
    requires w > 0.0
    ensures 0.0 <= a <= w <==> 0.0 <= a / w <= 1.0
  {
    var t := a / w;
    assert t * w == a;
    if t < 0.0 { NegTimesPos(t, w); }
    if t > 1.0 { NegTimesPos(1.0 - t, w); }
    if a < 0.0 { NegOverPos(a, w); }
    if a > w {
      NegOverPos(w - a, w);
      assert (w - a) / w == w / w - a / w;
      assert w / w == 1.0;
    }
  }

  lemma DivMonotone(a: real, b: real, w: real)
    requires w > 0.0 && a <= b
    ensures a / w <= b / w
  {
    if a < b {
      NegOverPos(a - b, w);
      assert (a - b) / w == a / w - b / w;
    }
  }

  lemma NegTimesPos(a: real, b: real)
    requires a < 0.0 && b > 0.0
    ensures a * b < 0.0
  {}

  lemma NegOverPos(a: real, b: real)
    requires a < 0.0 && b > 0.0
    ensures a / b < 0.0
  {}
}
