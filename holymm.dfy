/** holy-mm, the model editor: a scene of objects built from .holym files
    or from the cube and plane primitives, a fly camera steered by right-drag
    and WASD, and an immediate-mode panel to import, create, select and
    move objects. Unlike the engine, its buttons ignore the active-element
    token, and a left release frees the token at once (Widgets.OnEvent). */
module HolyMm {
  import opened Vectors
  import opened Outcomes
  import Text
  import Widgets
  import Camera
  import Holym

  const ScreenWidth: nat := 1280
  const ScreenHeight: nat := 720

  /** A mesh as the primitive generators return it: interleaved vertices
      (position, colour, texture coordinate) and triangle indices. */
  datatype Buffers = Buffers(vertices: seq<real>, indices: seq<nat>)

  // ---------------------------------------------------------------------
  // Scene objects

  /** A GameObject without its GPU buffers and texture handle. */
  class GameObject {
    const id: string
    const vertices: seq<real>
    const indices: seq<nat>
    var hasTexture: bool
    const texturePath: string
    var position: Vec3
    var rotation: Vec3
    var scale: Vec3

    /** The literal of createGameObject: at the origin, unrotated, unit scale. */
    constructor (id: string, vertices: seq<real>, indices: seq<nat>, hasTexture: bool, texturePath: string)
      ensures this.id == id && this.vertices == vertices && this.indices == indices
      ensures this.hasTexture == hasTexture && this.texturePath == texturePath
      ensures position == Zero && rotation == Zero && scale == One
    {
      this.id := id;
      this.vertices := vertices;
      this.indices := indices;
      this.hasTexture := hasTexture;
      this.texturePath := texturePath;
      this.position := Zero;
      this.rotation := Zero;
      this.scale := One;
    }

    /** Where createGameObject puts a new object: at the origin, unrotated, unit scale. */
    predicate AtRest()
      reads this
    {
      position == Zero && rotation == Zero && scale == One
    }
  }

  /** The serial-number invariant of Valid survives appending an object
      whose ID ends in the next serial. */
  lemma AppendedSerial(scene: seq<GameObject>, o: GameObject, prefix: string)
    requires forall i :: 0 <= i < |scene| ==> Text.IdNumber(scene[i].id) == Some(i)
    requires o.id == prefix + "_" + Text.Decimal(|scene|)
    ensures var s := scene + [o]; forall i :: 0 <= i < |s| ==> Text.IdNumber(s[i].id) == Some(i)
  {
    Text.IdNumberOf(prefix, |scene|);
    var s := scene + [o];
    forall i | 0 <= i < |s|
      ensures Text.IdNumber(s[i].id) == Some(i)
    {
      if i < |scene| {
        assert s[i] == scene[i];
      }
    }
  }

  /** The shapes createPrimitive knows and their ID prefixes. */
  predicate IsPrimitive(shape: string) {
    shape == "cube" || shape == "plane"
  }

  function PrimitivePrefix(shape: string): string
    requires IsPrimitive(shape)
  {
    if shape == "cube" then "Cube" else "Plane"
  }

  // ---------------------------------------------------------------------
  // The Editor Tools panel

  /** Controls of the tools panel are UiPanelWidth - 2 * UiPadding wide. */
  const ToolWidth: real := Widgets.UiPanelWidth - Widgets.UiPadding * 2.0
  const ToolX: real := Widgets.UiPadding + Widgets.UiPadding

  const ImportRect: Widgets.Rect := Widgets.Rect(ToolX, Widgets.UiPadding + Widgets.UiPadding, ToolWidth, Widgets.UiButtonHeight)

  /** The y of the two primitive buttons: below the Import button and the
      "Create Primitive:" caption, each one button height and a spacing. */
  const PrimitiveTop: real := Widgets.UiPadding + 2.0 * (Widgets.UiButtonHeight + Widgets.UiElementSpacing)

  /** Cube and Plane share the row, each half the width less half a spacing. */
  const CubeRect: Widgets.Rect :=
    Widgets.Rect(ToolX, PrimitiveTop, ToolWidth / 2.0 - Widgets.UiElementSpacing / 2.0, Widgets.UiButtonHeight)
  const PlaneRect: Widgets.Rect :=
    Widgets.Rect(ToolX + ToolWidth / 2.0 + Widgets.UiElementSpacing / 2.0, PrimitiveTop,
      ToolWidth / 2.0 - Widgets.UiElementSpacing / 2.0, Widgets.UiButtonHeight)

  /** The object list starts below the primitive row and the "Scene Objects:"
      caption; its rows are one button height and a spacing apart. */
  const ListTop: real := PrimitiveTop + 2.0 * (Widgets.UiButtonHeight + Widgets.UiElementSpacing)
  const RowStep: real := Widgets.UiButtonHeight + Widgets.UiElementSpacing

  function RowRect(y: real): Widgets.Rect {
    Widgets.Rect(ToolX, y, ToolWidth, Widgets.UiButtonHeight)
  }

  /** A row of the object list: the ID, marked when selected. */
  function RowLabel(o: GameObject, selected: GameObject?): string {
    o.id + if o == selected then " (Selected)" else ""
  }

  /** Row k of a list whose first row is at y is under the cursor. */
  predicate RowHovered(p: Widgets.Pointer, y: real, k: nat) {
    Widgets.IsMouseOver(p.x, p.y, RowRect(y + RowStep * k as real))
  }

  /** The object list from row y on: every object gets a button and a
      clicked row selects its object. The selection after the list. */
  function MmObjectList(p: Widgets.Pointer, objs: seq<GameObject>, selected: GameObject?, y: real): (r: GameObject?)
    ensures r == selected || r in objs
    // without a release in this frame no row is clicked
    ensures !p.released ==> r == selected
    decreases |objs|
  {
    if objs == [] then selected
    else MmObjectList(p, objs[1..], if Widgets.MmButton(p, RowRect(y)) then objs[0] else selected, y + RowStep)
  }

  lemma RowShift(p: Widgets.Pointer, y: real, k: nat)
    ensures RowHovered(p, y + RowStep, k) == RowHovered(p, y, k + 1)
  {
    assert y + RowStep + RowStep * k as real == y + RowStep * (k + 1) as real;
  }

  /** When no row is under the cursor the selection stays. */
  lemma {:induction false} MmObjectListMissed(p: Widgets.Pointer, objs: seq<GameObject>, selected: GameObject?, y: real)
    requires forall k :: 0 <= k < |objs| ==> !RowHovered(p, y, k)
    ensures MmObjectList(p, objs, selected, y) == selected
    decreases |objs|
  {
    if objs != [] {
      assert !RowHovered(p, y, 0);
      assert y + RowStep * 0 as real == y;
      var next := y + RowStep;
      forall k | 0 <= k < |objs| - 1
        ensures !RowHovered(p, next, k)
      {
        RowShift(p, y, k);
      }
      MmObjectListMissed(p, objs[1..], selected, next);
    }
  }

  /** Rows are 35 apart and 30 high, so a cursor on row k is on no later row. */
  lemma LaterRowsMissed(p: Widgets.Pointer, y: real, next: real, n: nat)
    requires RowHovered(p, y, 0) && next == y + RowStep
    ensures forall k :: 0 <= k < n ==> !RowHovered(p, next, k)
  {
    assert y + RowStep * 0 as real == y;
    forall k | 0 <= k < n
      ensures !RowHovered(p, next, k)
    {
      assert RowStep * k as real >= 0.0;
    }
  }

  /** A release over row k selects the object of row k, whatever was
      selected before. */
  lemma {:induction false} MmObjectListPick(p: Widgets.Pointer, objs: seq<GameObject>, selected: GameObject?, y: real, k: nat)
    requires p.released && k < |objs| && RowHovered(p, y, k)
    ensures MmObjectList(p, objs, selected, y) == objs[k]
    decreases k
  {
    var next := if Widgets.MmButton(p, RowRect(y)) then objs[0] else selected;
    if k == 0 {
      assert y + RowStep * 0 as real == y;
      LaterRowsMissed(p, y, y + RowStep, |objs| - 1);
      MmObjectListMissed(p, objs[1..], objs[0], y + RowStep);
    } else {
      RowShift(p, y, k - 1);
      MmObjectListPick(p, objs[1..], next, y + RowStep, k - 1);
    }
  }

  /** The three tool buttons do not overlap: at most one of them clicks in a frame. */
  lemma ToolButtonsExclusive(p: Widgets.Pointer)
    ensures !(Widgets.MmButton(p, ImportRect) && Widgets.MmButton(p, CubeRect))
    ensures !(Widgets.MmButton(p, ImportRect) && Widgets.MmButton(p, PlaneRect))
    ensures !(Widgets.MmButton(p, CubeRect) && Widgets.MmButton(p, PlaneRect))
  {}

  // ---------------------------------------------------------------------
  // Input

  /** The camera and mouse-look state, and the right button as the
      callbacks last saw it. */
  datatype View = View(
    pos: Vec3,
    front: Vec3,
    up: Vec3,
    look: Camera.Look,
    firstMouse: bool,
    rightPressed: bool)

  datatype MouseButton = LeftButton | RightButton | OtherButton
  datatype Action = Press | Release

  /** A window event, delivered by the callbacks during PollEvents. */
  datatype Event =
    | CursorPos(xpos: real, ypos: real)
    | MouseClick(button: MouseButton, action: Action)
    | FramebufferSize(width: nat, height: nat)

  predicate EventOk(e: Event) {
    e.FramebufferSize? ==> e.width > 0 && e.height > 0
  }

  /** The keys processInput samples after the events, level-triggered. */
  datatype Keys = Keys(escape: bool, w: bool, a: bool, s: bool, d: bool)

  /** What the Import button leads to or fails with. */
  datatype LoadError = CannotOpen | ParseFailed(error: Holym.HolymError)

  class App {
    var width: nat
    var height: nat
    var view: View
    var pointer: Widgets.Pointer
    var running: bool
    var objects: seq<GameObject>
    var selectedObject: GameObject?
    var nextObjectID: nat

    /** The normalised view direction for a yaw and pitch in degrees
        (the trigonometry of updateCameraAndProjection). */
    const frontOf: (real, real) -> Vec3
    /** mgl32's Vec3.Normalize. */
    const normalize: Vec3 -> Vec3
    /** Whether newTexture can load the image at a path. */
    const textureLoads: string -> bool
    /** filepath.Base. */
    const baseName: string -> string
    /** The tables of generateCubeData and generatePlaneData. */
    const cubeBuffers: Buffers
    const planeBuffers: Buffers

    ghost predicate Valid()
      reads this`objects, this`nextObjectID, this`selectedObject, this`view, this`width, this`height
    {
      // every object carries its index as serial
      && (forall i :: 0 <= i < |objects| ==> Text.IdNumber(objects[i].id) == Some(i))
      && nextObjectID == |objects|
      && (forall i, j :: 0 <= i < j < |objects| ==> objects[i] != objects[j])
      && (selectedObject != null ==> selectedObject in objects)
      // the camera
      && -Camera.PitchLimit <= view.look.pitch <= Camera.PitchLimit
      && view.front == frontOf(view.look.yaw, view.look.pitch)
      && width > 0 && height > 0
    }

    /** Object IDs are unique. */
    lemma IdsUnique()
      requires Valid()
      ensures forall i, j :: 0 <= i < j < |objects| ==> objects[i].id != objects[j].id
    {}

    /** Mouse-look is on: the right button is held and no widget is active. */
    predicate LookActive()
      reads this
    {
      view.rightPressed && pointer.active == ""
    }

    /** o is what createPrimitive builds for `shape` with serial n. */
    predicate PrimitiveObject(o: GameObject, shape: string, n: nat)
      reads o
    {
      IsPrimitive(shape) &&
      o.id == PrimitivePrefix(shape) + "_" + Text.Decimal(n) &&
      Buffers(o.vertices, o.indices) == (if shape == "cube" then cubeBuffers else planeBuffers) &&
      !o.hasTexture && o.texturePath == ""
    }

    /** o is what loadHolymModel builds for mesh m read from filePath, with
        serial n: a texture that cannot be loaded falls back to colours. */
    predicate ModelObject(o: GameObject, filePath: string, m: Holym.Mesh, n: nat)
      reads o
    {
      o.id == baseName(filePath) + "_" + Text.Decimal(n) &&
      o.vertices == m.vertices && o.indices == m.indices && o.texturePath == m.texturePath &&
      o.hasTexture == (m.hasTexture && (m.texturePath == "" || textureLoads(m.texturePath)))
    }

    // --- the callbacks ---

    /** The cursor callback: the cursor for the widgets, and mouse-look
        while LookActive, else the first-sample flag is re-armed. */
    method OnCursorPos(xpos: real, ypos: real)
      requires Valid()
      modifies this`pointer, this`view
      ensures Valid()
      ensures pointer == old(pointer).(x := xpos, y := ypos)
      ensures old(LookActive()) ==>
        var l := Camera.LookStep(old(view.look), old(view.firstMouse), xpos, ypos);
        view == old(view).(look := l, firstMouse := false, front := frontOf(l.yaw, l.pitch))
      ensures !old(LookActive()) ==> view == old(view).(firstMouse := true)
    {
      pointer := pointer.(x := xpos, y := ypos);
      if view.rightPressed && pointer.active == "" {
        var lastX := view.look.lastX;
        var lastY := view.look.lastY;
        if view.firstMouse {
          lastX, lastY := xpos, ypos;
          view := view.(firstMouse := false);
        }
        var xoffset := (xpos - lastX) * Camera.MouseSensitivity;
        var yoffset := (lastY - ypos) * Camera.MouseSensitivity;
        var pitch := Camera.ClampPitch(view.look.pitch + yoffset);
        view := view.(look := Camera.Look(view.look.yaw + xoffset, pitch, xpos, ypos));
        view := view.(front := frontOf(view.look.yaw, view.look.pitch));
      } else {
        view := view.(firstMouse := true);
      }
    }

    /** The mouse-button callback: the left button's flags, a release
        freeing the token; the right button's state; others ignored. */
    method OnMouseButton(button: MouseButton, action: Action)
      modifies this`pointer, this`view
      ensures button == LeftButton ==>
        pointer == Widgets.OnEvent(old(pointer), if action == Press then Widgets.Press else Widgets.Release)
      ensures button != LeftButton ==> pointer == old(pointer)
      ensures button == RightButton ==> view == old(view).(rightPressed := action == Press)
      ensures button != RightButton ==> view == old(view)
    {
      if button == LeftButton {
        if action == Press {
          pointer := pointer.(pressed := true, released := false);
        } else {
          pointer := pointer.(released := true, pressed := false, active := "");
        }
      }
      if button == RightButton {
        view := view.(rightPressed := action == Press);
      }
    }

    /** The framebuffer-size callback: the new size, and the view direction
        recomputed from yaw and pitch (which leaves it as it was). */
    method OnFramebufferSize(w: nat, h: nat)
      requires Valid() && w > 0 && h > 0
      modifies this`width, this`height, this`view
      ensures Valid()
      ensures width == w && height == h && view == old(view)
    {
      width := w;
      height := h;
      view := view.(front := frontOf(view.look.yaw, view.look.pitch));
    }

    /** One event, to its callback. */
    method Dispatch(e: Event)
      requires Valid() && EventOk(e)
      modifies this`pointer, this`view, this`width, this`height
      ensures Valid()
    {
      match e
      case CursorPos(x, y) => OnCursorPos(x, y);
      case MouseClick(b, a) => OnMouseButton(b, a);
      case FramebufferSize(w, h) => OnFramebufferSize(w, h);
    }

    /** glfw.PollEvents: every queued event through its callback, in order. */
    method PollEvents(events: seq<Event>)
      requires Valid()
      requires forall k :: 0 <= k < |events| ==> EventOk(events[k])
      modifies this`pointer, this`view, this`width, this`height
      ensures Valid()
    {
      var i := 0;
      while i < |events|
        invariant 0 <= i <= |events|
        invariant Valid()
      {
        Dispatch(events[i]);
        i := i + 1;
      }
    }

    /** The key part of processInput: ESC stops the editor; WASD moves the
        camera by CameraSpeed times the frame time, but only while no
        widget is active. */
    method HandleKeys(keys: Keys, dt: real)
      requires Valid()
      modifies this`running, this`view
      ensures Valid()
      ensures running == (old(running) && !keys.escape)
      ensures old(pointer.active) == "" ==> view == old(view).(pos := Camera.Walk(old(view.pos), view.front, view.up,
        Camera.CameraSpeed * dt, Camera.MoveKeys(keys.w, keys.s, keys.a, keys.d), normalize))
      ensures old(pointer.active) != "" ==> view == old(view)
    {
      if keys.escape {
        running := false;
      }
      if pointer.active == "" {
        var moveSpeed := Camera.CameraSpeed * dt;
        var pos := Camera.WalkKeys(view.pos, view.front, view.up, moveSpeed,
          Camera.MoveKeys(keys.w, keys.s, keys.a, keys.d), normalize);
        ghost var walked := view.(pos := pos);
        view := view.(pos := pos);
        view := view.(front := frontOf(view.look.yaw, view.look.pitch));
        assert view == walked;
      }
    }

    /** processInput: the queued window events, then the keys. */
    method ProcessInput(events: seq<Event>, keys: Keys, dt: real)
      requires Valid()
      requires forall k :: 0 <= k < |events| ==> EventOk(events[k])
      modifies this`pointer, this`view, this`width, this`height, this`running
      ensures Valid()
      ensures keys.escape ==> !running
      ensures !keys.escape ==> running == old(running)
    {
      PollEvents(events);
      HandleKeys(keys, dt);
    }

    // --- the UI pass ---

    /** handleButton: a click is a release over the button. */
    method HandleButton(r: Widgets.Rect) returns (clicked: bool)
      ensures clicked == Widgets.MmButton(pointer, r)
    {
      var isOver := Widgets.IsMouseOver(pointer.x, pointer.y, r);
      clicked := false;
      if isOver && pointer.released {
        clicked := true;
      }
    }

    /** handleSlider, returning the value it writes through its pointer. */
    method HandleSlider(r: Widgets.Rect, id: string, value: real, lo: real, hi: real) returns (newValue: real)
      requires lo < hi && r.width > 0.0
      modifies this`pointer
      ensures var sl := Widgets.Slider(old(pointer), r, id, value, lo, hi);
        newValue == sl.value && pointer == old(pointer).(active := sl.active)
    {
      var isOver := Widgets.IsMouseOver(pointer.x, pointer.y, r);
      newValue := value;
      if pointer.active == id {
        var newNormalizedValue := (pointer.x - r.x) / r.width;
        newValue := lo + newNormalizedValue * (hi - lo);
        newValue := Widgets.Max(lo, Widgets.Min(hi, newValue));
      }
      if isOver && pointer.pressed && pointer.active == "" {
        pointer := pointer.(active := id);
      }
    }

    /** The object list of the tools panel. */
    method ObjectListPass()
      modifies this`selectedObject
      ensures selectedObject == MmObjectList(pointer, objects, old(selectedObject), ListTop)
    {
      var currentY := ListTop;
      var i := 0;
      while i < |objects|
        invariant 0 <= i <= |objects|
        invariant MmObjectList(pointer, objects, old(selectedObject), ListTop) ==
          MmObjectList(pointer, objects[i..], selectedObject, currentY)
      {
        var obj := objects[i];
        assert objects[i..][0] == obj && objects[i..][1..] == objects[i + 1..];
        var clicked := HandleButton(RowRect(currentY));
        if clicked {
          selectedObject := obj;
        }
        currentY := currentY + RowStep;
        i := i + 1;
      }
    }

    /** Three sliders editing the components of `v`, at top, top + 30 and top + 60. */
    method EditVector(top: real, prefix: string, v: Vec3, lo: real, hi: real) returns (w: Vec3)
      requires lo < hi
      modifies this`pointer
      ensures var (active, edited) := Widgets.VectorSliders(old(pointer), width, top, prefix, v, lo, hi);
        w == edited && pointer == old(pointer).(active := active)
    {
      ghost var r := Widgets.VectorSliders(pointer, width, top, prefix, v, lo, hi);
      var x := HandleSlider(Widgets.SliderRect(width, top), Widgets.AxisId(prefix, 0), v.x, lo, hi);
      w := v.With(0, x);
      assert r == Widgets.SlidersFrom(pointer, width, top, prefix, w, lo, hi, 1);
      var y := HandleSlider(Widgets.SliderRect(width, top + 30.0), Widgets.AxisId(prefix, 1), w.y, lo, hi);
      w := w.With(1, y);
      assert r == Widgets.SlidersFrom(pointer, width, top, prefix, w, lo, hi, 2);
      var z := HandleSlider(Widgets.SliderRect(width, top + 60.0), Widgets.AxisId(prefix, 2), w.z, lo, hi);
      w := w.With(2, z);
      assert r == Widgets.SlidersFrom(pointer, width, top, prefix, w, lo, hi, 3);
    }

    /** The properties panel of the selected object: position x, y, z in
        [-10, 10] from y = 60, scale x, y, z in [0.01, 5] from y = 155. */
    method PropertiesPanel()
      requires selectedObject != null
      modifies this`pointer, selectedObject
      ensures var (a1, position) := Widgets.VectorSliders(old(pointer), width, 60.0, "pos", old(selectedObject.position), -10.0, 10.0);
        var (a2, scale) := Widgets.VectorSliders(old(pointer).(active := a1), width, 155.0, "scale", old(selectedObject.scale), 0.01, 5.0);
        pointer == old(pointer).(active := a2) &&
        selectedObject.position == position && selectedObject.scale == scale
      ensures selectedObject.rotation == old(selectedObject.rotation)
      ensures selectedObject.hasTexture == old(selectedObject.hasTexture)
    {
      var o := selectedObject;
      var position := EditVector(60.0, "pos", o.position, -10.0, 10.0);
      o.position := position;
      var scale := EditVector(155.0, "scale", o.scale, 0.01, 5.0);
      o.scale := scale;
    }

    /** drawCustomUI: the Import button (which loads the model at the path
        typed at the prompt, if one was typed), the Cube and Plane buttons,
        the object list, then the properties panel of the selected object.
        `importPath` is the trimmed line read from standard input and
        `importFile` the lines of the file at that path (None when it cannot
        be opened). */
    method DrawCustomUI(importPath: string, importFile: Option<seq<string>>, parseFloat: string -> real)
      requires Valid()
      modifies this`pointer, this`objects, this`nextObjectID, this`selectedObject, objects
      ensures Valid()
      ensures pointer == old(pointer).(active := pointer.active)
      // at most one object is created per frame, and it goes at the end
      ensures old(objects) <= objects && |objects| <= |old(objects)| + 1
      // without a release nothing is created or selected
      ensures !old(pointer.released) ==> objects == old(objects) && selectedObject == old(selectedObject)
      // which button created what
      ensures Widgets.MmButton(old(pointer), CubeRect) ==>
        |objects| == |old(objects)| + 1 && fresh(objects[|old(objects)|]) &&
        PrimitiveObject(objects[|old(objects)|], "cube", |old(objects)|)
      ensures Widgets.MmButton(old(pointer), PlaneRect) ==>
        |objects| == |old(objects)| + 1 && fresh(objects[|old(objects)|]) &&
        PrimitiveObject(objects[|old(objects)|], "plane", |old(objects)|)
      ensures Widgets.MmButton(old(pointer), ImportRect) && importPath != "" ==>
        if importFile.Some? && Holym.Holym(importFile.value, parseFloat).Ok? then
          |objects| == |old(objects)| + 1 && fresh(objects[|old(objects)|]) &&
          ModelObject(objects[|old(objects)|], importPath, Holym.Holym(importFile.value, parseFloat).value, |old(objects)|)
        else objects == old(objects)
      ensures (!Widgets.MmButton(old(pointer), CubeRect) && !Widgets.MmButton(old(pointer), PlaneRect) &&
        !(Widgets.MmButton(old(pointer), ImportRect) && importPath != "")) ==> objects == old(objects)
      // the list then picks from the scene, a new object being selected already
      ensures selectedObject == MmObjectList(old(pointer), objects,
        if |objects| == |old(objects)| + 1 then objects[|old(objects)|] else old(selectedObject), ListTop)
    {
      ToolButtons(importPath, importFile, parseFloat);
      SelectionPanels();
    }

    /** The object list, then the properties panel of the selected object. */
    method SelectionPanels()
      requires Valid()
      modifies this`pointer, this`selectedObject, objects
      ensures Valid()
      ensures pointer == old(pointer).(active := pointer.active)
      ensures !old(pointer.released) ==> selectedObject == old(selectedObject)
      ensures selectedObject == MmObjectList(old(pointer), objects, old(selectedObject), ListTop)
      // the properties panel edits the selected object and no other
      ensures selectedObject == null ==> pointer == old(pointer)
      ensures selectedObject != null ==> var o := selectedObject;
        var (a1, position) := Widgets.VectorSliders(old(pointer), width, 60.0, "pos", old(o.position), -10.0, 10.0);
        var (a2, scale) := Widgets.VectorSliders(old(pointer).(active := a1), width, 155.0, "scale", old(o.scale), 0.01, 5.0);
        pointer == old(pointer).(active := a2) && o.position == position && o.scale == scale &&
        o.rotation == old(o.rotation) && o.hasTexture == old(o.hasTexture)
      ensures forall i :: 0 <= i < |objects| && objects[i] != selectedObject ==> unchanged(objects[i])
    {
      ObjectListPass();
      if selectedObject != null {
        PropertiesPanel();
      }
    }

    /** The Import, Cube and Plane buttons of the tools panel. */
    method ToolButtons(importPath: string, importFile: Option<seq<string>>, parseFloat: string -> real)
      requires Valid()
      modifies this`objects, this`nextObjectID, this`selectedObject
      ensures Valid()
      ensures old(objects) <= objects && |objects| <= |old(objects)| + 1
      ensures forall i :: |old(objects)| <= i < |objects| ==> fresh(objects[i])
      ensures !pointer.released ==> objects == old(objects) && selectedObject == old(selectedObject)
      // a Cube or Plane click is createPrimitive of that shape
      ensures Widgets.MmButton(pointer, CubeRect) ==>
        selectedObject != null && fresh(selectedObject) && objects == old(objects) + [selectedObject] &&
        PrimitiveObject(selectedObject, "cube", |old(objects)|) && selectedObject.AtRest()
      ensures Widgets.MmButton(pointer, PlaneRect) ==>
        selectedObject != null && fresh(selectedObject) && objects == old(objects) + [selectedObject] &&
        PrimitiveObject(selectedObject, "plane", |old(objects)|) && selectedObject.AtRest()
      // an Import click with a path typed is loadHolymModel of that path
      ensures Widgets.MmButton(pointer, ImportRect) && importPath != "" ==>
        if importFile.Some? && Holym.Holym(importFile.value, parseFloat).Ok? then
          selectedObject != null && fresh(selectedObject) && objects == old(objects) + [selectedObject] &&
          ModelObject(selectedObject, importPath, Holym.Holym(importFile.value, parseFloat).value, |old(objects)|) &&
          selectedObject.AtRest()
        else objects == old(objects) && selectedObject == old(selectedObject)
      // no effective click, no change
      ensures (!Widgets.MmButton(pointer, CubeRect) && !Widgets.MmButton(pointer, PlaneRect) &&
        !(Widgets.MmButton(pointer, ImportRect) && importPath != "")) ==>
        objects == old(objects) && selectedObject == old(selectedObject)
    {
      ToolButtonsExclusive(pointer);
      var importClicked := HandleButton(ImportRect);
      if importClicked && importPath != "" {
        var err := LoadHolymModel(importPath, importFile, parseFloat);
      }
      var cubeClicked := HandleButton(CubeRect);
      if cubeClicked {
        var o := CreatePrimitive("cube");
      }
      var planeClicked := HandleButton(PlaneRect);
      if planeClicked {
        var o := CreatePrimitive("plane");
      }
    }

    // --- object factories ---

    /** createGameObject: a new object at the origin, unrotated, of unit
        scale, appended to the scene; a texture that cannot be loaded falls
        back to vertex colours; the serial counter moves on. */
    method CreateGameObject(id: string, vertices: seq<real>, indices: seq<nat>, hasTexture: bool, texturePath: string)
      returns (o: GameObject)
      modifies this`objects, this`nextObjectID
      ensures fresh(o) && o.id == id && o.vertices == vertices && o.indices == indices && o.texturePath == texturePath
      ensures o.hasTexture == (hasTexture && (texturePath == "" || textureLoads(texturePath)))
      ensures o.AtRest()
      ensures objects == old(objects) + [o] && nextObjectID == old(nextObjectID) + 1
    {
      o := new GameObject(id, vertices, indices, hasTexture, texturePath);
      if o.hasTexture && o.texturePath != "" {
        if !textureLoads(o.texturePath) {
          o.hasTexture := false;
        }
      }
      objects := objects + [o];
      nextObjectID := nextObjectID + 1;
    }

    /** createPrimitive: a "cube" or "plane" becomes a new, untextured,
        selected object named after the shape and the serial counter; any
        other shape creates nothing. */
    method CreatePrimitive(shape: string) returns (o: GameObject?)
      requires Valid()
      modifies this`objects, this`nextObjectID, this`selectedObject
      ensures Valid()
      ensures !IsPrimitive(shape) ==>
        o == null && objects == old(objects) && nextObjectID == old(nextObjectID) && selectedObject == old(selectedObject)
      ensures IsPrimitive(shape) ==>
        o != null && fresh(o) && objects == old(objects) + [o] && selectedObject == o &&
        PrimitiveObject(o, shape, old(nextObjectID)) && o.AtRest()
    {
      var buffers: Buffers;
      var id: string;
      if shape == "cube" {
        id := "Cube_" + Text.Decimal(nextObjectID);
        buffers := cubeBuffers;
      } else if shape == "plane" {
        id := "Plane_" + Text.Decimal(nextObjectID);
        buffers := planeBuffers;
      } else {
        return null;
      }
      ghost var scene := objects;
      o := CreateGameObject(id, buffers.vertices, buffers.indices, false, "");
      AppendedSerial(scene, o, PrimitivePrefix(shape));
      selectedObject := o;
    }

    /** loadHolymModel: the file's lines through the .holym parser; on
        success a new selected object holding the parsed buffers, named
        after the file's base name and the serial counter; on failure the
        scene is left as it was. */
    method LoadHolymModel(filePath: string, file: Option<seq<string>>, parseFloat: string -> real)
      returns (err: Option<LoadError>)
      requires Valid()
      modifies this`objects, this`nextObjectID, this`selectedObject
      ensures Valid()
      ensures file.None? ==> err == Some(CannotOpen)
      ensures file.Some? && Holym.Holym(file.value, parseFloat).Err? ==>
        err == Some(ParseFailed(Holym.Holym(file.value, parseFloat).error))
      ensures err.Some? ==>
        objects == old(objects) && nextObjectID == old(nextObjectID) && selectedObject == old(selectedObject)
      ensures err.None? <==> file.Some? && Holym.Holym(file.value, parseFloat).Ok?
      ensures err.None? ==>
        var m := Holym.Holym(file.value, parseFloat).value;
        selectedObject != null && fresh(selectedObject) && objects == old(objects) + [selectedObject] &&
        ModelObject(selectedObject, filePath, m, old(nextObjectID)) && selectedObject.AtRest()
    {
      if file.None? {
        return Some(CannotOpen);
      }
      var r := Holym.ParseHolym(file.value, parseFloat);
      if r.Err? {
        return Some(ParseFailed(r.error));
      }
      var m := r.value;
      var id := baseName(filePath) + "_" + Text.Decimal(nextObjectID);
      ghost var scene := objects;
      var o := CreateGameObject(id, m.vertices, m.indices, m.hasTexture, m.texturePath);
      AppendedSerial(scene, o, baseName(filePath));
      selectedObject := o;
      err := None;
    }

    // --- the application ---

    /** initApp: a 1280 x 720 window, running, an empty scene, and the
        camera at (0, 2, 5) looking down -Z. */
    constructor (frontOf: (real, real) -> Vec3, normalize: Vec3 -> Vec3, textureLoads: string -> bool,
                 baseName: string -> string, cubeBuffers: Buffers, planeBuffers: Buffers)
      ensures Valid()
      ensures width == ScreenWidth && height == ScreenHeight && running
      ensures view == View(Vec3(0.0, 2.0, 5.0), frontOf(-90.0, 0.0), Vec3(0.0, 1.0, 0.0),
        Camera.Look(-90.0, 0.0, 0.0, 0.0), true, false)
      ensures pointer == Widgets.Idle
      ensures objects == [] && selectedObject == null && nextObjectID == 0
      ensures this.frontOf == frontOf && this.normalize == normalize && this.textureLoads == textureLoads
      ensures this.baseName == baseName && this.cubeBuffers == cubeBuffers && this.planeBuffers == planeBuffers
    {
      this.frontOf := frontOf;
      this.normalize := normalize;
      this.textureLoads := textureLoads;
      this.baseName := baseName;
      this.cubeBuffers := cubeBuffers;
      this.planeBuffers := planeBuffers;
      width := ScreenWidth;
      height := ScreenHeight;
      running := true;
      view := View(Vec3(0.0, 2.0, 5.0), frontOf(-90.0, 0.0), Vec3(0.0, 1.0, 0.0),
        Camera.Look(-90.0, 0.0, 0.0, 0.0), true, false);
      pointer := Widgets.Idle;
      objects := [];
      selectedObject := null;
      nextObjectID := 0;
    }

    /** One pass of the main loop: input, the (empty) scene update, the UI
        over the rendered scene, and the released flag cleared. */
    method Frame(events: seq<Event>, keys: Keys, dt: real,
                 importPath: string, importFile: Option<seq<string>>, parseFloat: string -> real)
      requires Valid()
      requires forall k :: 0 <= k < |events| ==> EventOk(events[k])
      modifies this`pointer, this`view, this`width, this`height, this`running,
        this`objects, this`nextObjectID, this`selectedObject, objects
      ensures Valid()
      ensures !pointer.released
      ensures keys.escape ==> !running
      ensures old(objects) <= objects && |objects| <= |old(objects)| + 1
    {
      ProcessInput(events, keys, dt);
      DrawCustomUI(importPath, importFile, parseFloat);
      pointer := Widgets.EndFrame(pointer);
    }
  }
}
