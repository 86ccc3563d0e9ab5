/** The runtime of holy-engine-base: the scene objects, the hand tool (pick,
    hold, rotate, release and throw), the mouse and keyboard handling, the
    fixed-step physics driver and the object factories, as one App object
    whose fields the callbacks and the frame loop update in place.

    The release callback here keeps the active-element token; the end of the
    frame frees it after the UI pass (Widgets.CorrectedEndFrame). The source
    frees it in the callback, which makes every button click unreachable
    (Widgets.AsWrittenEngineNeverClicks). */
module Engine {
  import opened Vectors
  import opened Outcomes
  import Text
  import Physics
  import Slab
  import Widgets
  import Camera

  const ScreenWidth: nat := 1280
  const ScreenHeight: nat := 720
  const PickupRange: real := 10.0
  const ThrowForceMagnitude: real := 10.0
  const InitialHoldDistance: real := 2.0
  const MinHoldDistance: real := 1.0
  const MaxHoldDistance: real := 5.0
  const ScrollSensitivity: real := 0.1
  /** The factor of the cursor offsets in the held-object spin. */
  const SpinFactor: real := 0.1
  const GroundPlaneId: string := "GroundPlane"

  // ---------------------------------------------------------------------
  // Picking, as a function of what the ray test says about each object

  /** One object as tryPickObject sees it: whether it may be picked at all
      (not the ground, not already held) and the slab test's answer. */
  datatype Probe = Probe(eligible: bool, hit: bool, dist: real)

  predicate Qualifies(p: Probe) {
    p.eligible && p.hit && p.dist < PickupRange
  }

  /** The object tryPickObject picks: the earliest one whose distance is
      strictly smaller than every qualifying one before it. */
  function Best(ps: seq<Probe>): (r: Option<nat>)
    ensures r.Some? ==> r.value < |ps| && Qualifies(ps[r.value])
    decreases |ps|
  {
    if ps == [] then None
    else
      var b := Best(ps[..|ps| - 1]);
      var last := ps[|ps| - 1];
      if Qualifies(last) && (b.None? || last.dist < ps[b.value].dist) then Some(|ps| - 1) else b
  }

  /** The pick is nearest: no qualifying object is closer, and every
      qualifying object listed before it is strictly farther. */
  lemma {:induction false} BestIsNearest(ps: seq<Probe>)
    ensures Best(ps).Some? ==>
      forall j :: 0 <= j < |ps| && Qualifies(ps[j]) ==>
        ps[Best(ps).value].dist <= ps[j].dist && (j < Best(ps).value ==> ps[Best(ps).value].dist < ps[j].dist)
    decreases |ps|
  {
    if ps != [] {
      var front := ps[..|ps| - 1];
      BestIsNearest(front);
      BestNoneIff(front);
      assert forall j :: 0 <= j < |front| ==> front[j] == ps[j];
    }
  }

  /** Nothing is picked exactly when nothing qualifies. */
  lemma {:induction false} BestNoneIff(ps: seq<Probe>)
    ensures Best(ps).None? <==> forall j :: 0 <= j < |ps| ==> !Qualifies(ps[j])
    decreases |ps|
  {
    if ps != [] {
      var front := ps[..|ps| - 1];
      BestNoneIff(front);
      assert forall j :: 0 <= j < |front| ==> front[j] == ps[j];
    }
  }

  /** One turn of the search loop, with `closest` the best distance so far
      (PickupRange + 1 before any hit). */
  lemma PickStep(ps: seq<Probe>, p: Probe, best: Option<nat>, closest: real)
    requires best == Best(ps)
    requires best.None? ==> closest == PickupRange + 1.0
    requires best.Some? ==> best.value < |ps| && closest == ps[best.value].dist
    ensures Best(ps + [p]) == if Qualifies(p) && p.dist < closest then Some(|ps|) else best
  {
    BestSnoc(ps, p);
  }

  lemma BestSnoc(ps: seq<Probe>, p: Probe)
    ensures Best(ps + [p]) ==
      if Qualifies(p) && (Best(ps).None? || p.dist < ps[Best(ps).value].dist) then Some(|ps|) else Best(ps)
  {
    assert (ps + [p])[..|ps|] == ps;
  }

  // ---------------------------------------------------------------------
  // Scene objects

  /** A GameObject without its GPU buffers and texture. */
  class GameObject {
    const id: string
    var position: Vec3
    var rotation: Vec3
    var scale: Vec3
    var velocity: Vec3
    var angularVelocity: Vec3
    var isKinematic: bool
    var isGrounded: bool
    const boundingBox: Box
    const mass: real

    /** The physics fields, as a value. */
    function Body(): Physics.Body
      reads this
    {
      Physics.Body(position, rotation, scale, velocity, angularVelocity, isKinematic, isGrounded, boundingBox)
    }

    /** The local bounding box scaled per component and moved to the position. */
    function WorldMin(): Vec3
      reads this
    {
      position.Add(boundingBox.min.CompMul(scale))
    }

    function WorldMax(): Vec3
      reads this
    {
      position.Add(boundingBox.max.CompMul(scale))
    }

    /** The initial state createGameObject gives every object. */
    constructor (id: string, initialPos: Vec3, mass: real, boundingBox: Box)
      ensures this.id == id && this.mass == mass
      ensures Body() == Physics.Body(initialPos, Zero, One, Zero, Zero, false, false, boundingBox)
    {
      this.id := id;
      this.position := initialPos;
      this.rotation := Zero;
      this.scale := One;
      this.velocity := Zero;
      this.angularVelocity := Zero;
      this.isKinematic := false;
      this.isGrounded := false;
      this.boundingBox := boundingBox;
      this.mass := mass;
    }

    /** The body of the loop in updatePhysics, for this object. */
    method StepPhysics(dt: real)
      modifies this
      ensures Body() == Physics.Step(old(Body()), dt)
    {
      if isKinematic {
        velocity := Zero;
        angularVelocity := Zero;
        return;
      }
      ghost var before := Body();
      velocity := Vec3(velocity.x, velocity.y + Physics.Gravity * dt, velocity.z);
      position := position.Add(velocity.Mul(dt));
      rotation := rotation.Add(angularVelocity.Mul(dt));
      ghost var integrated := Body();
      assert integrated == before.(velocity := velocity, position := position, rotation := rotation);
      assert integrated == Physics.Integrate(before, dt);
      var lowestPointY := position.y + scale.y * boundingBox.min.y;
      assert lowestPointY == Physics.LowestPoint(integrated);
      if lowestPointY < Physics.GroundPlaneY {
        position := Vec3(position.x, Physics.GroundPlaneY - scale.y * boundingBox.min.y, position.z);
        velocity := Vec3(velocity.x, 0.0, velocity.z);
        isGrounded := true;
        velocity := Vec3(velocity.x * Physics.Damping, velocity.y, velocity.z * Physics.Damping);
        angularVelocity := angularVelocity.Mul(Physics.Damping);
        assert Body() == Physics.Collide(integrated);
      } else {
        isGrounded := false;
      }
    }
  }

  // ---------------------------------------------------------------------
  // Input

  /** The camera and mouse-look state: position and basis, yaw/pitch with
      the last cursor sample, and the grab flags. */
  datatype View = View(
    pos: Vec3,
    front: Vec3,
    up: Vec3,
    look: Camera.Look,
    firstMouse: bool,
    grabbed: bool,
    rightPressed: bool)

  /** The hand tool: hold distance, the R-rotation flag and its last cursor sample. */
  datatype Hand = Hand(holdDistance: real, rotating: bool, lastRotX: real, lastRotY: real)

  datatype MouseButton = LeftButton | RightButton | OtherButton
  datatype Action = Press | Release

  /** A window event, delivered by the callbacks during PollEvents. */
  datatype Event =
    | CursorPos(xpos: real, ypos: real)
    | MouseClick(button: MouseButton, action: Action)
    | Scroll(xoff: real, yoff: real)
    | FramebufferSize(width: nat, height: nat)

  /** The keys processInput samples after the events, level-triggered. */
  datatype Keys = Keys(
    escape: bool, e: bool, r: bool,
    w: bool, a: bool, s: bool, d: bool,
    leftShift: bool, rightShift: bool, capsLock: bool)

  predicate EventOk(e: Event) {
    e.FramebufferSize? ==> e.width > 0 && e.height > 0
  }

  /** The label of the kinematic toggle, as "Is Kinematic: %t" prints it. */
  function KinematicLabel(k: bool): string {
    "Is Kinematic: " + if k then "true" else "false"
  }

  /** The shapes createPrimitive knows, their ID prefix, box and mass. */
  predicate IsPrimitive(shape: string) {
    shape == "cube" || shape == "plane" || shape == "sphere"
  }

  function PrimitivePrefix(shape: string): string
    requires IsPrimitive(shape)
  {
    if shape == "cube" then "Cube" else if shape == "plane" then "Plane" else "Sphere"
  }

  const UnitCube: Box := Box(Vec3(-0.5, -0.5, -0.5), Vec3(0.5, 0.5, 0.5))
  const UnitPlane: Box := Box(Vec3(-0.5, 0.0, -0.5), Vec3(0.5, 0.0, 0.5))

  function PrimitiveBox(shape: string): Box
    requires IsPrimitive(shape)
  {
    if shape == "plane" then UnitPlane else UnitCube
  }

  // ---------------------------------------------------------------------
  // The UI layout of drawCustomUI

  const UiTextHeight: real := 16.0

  const ImportLabel: string := "Import Model (.holym) - Not Supported"
  /** The Import button: the first element of the Engine Tools panel. */
  const ImportRect: Widgets.Rect := Widgets.Rect(Widgets.UiPadding + Widgets.UiPadding, Widgets.UiPadding + Widgets.UiPadding, Widgets.UiPanelWidth - Widgets.UiPadding * 2.0, Widgets.UiButtonHeight)
  /** The y of the first row of the object list: below the Import button
      and the "Scene Objects:" caption. */
  const ListTop: real := Widgets.UiPadding + Widgets.UiButtonHeight + Widgets.UiElementSpacing + UiTextHeight + Widgets.UiElementSpacing

  /** A row of the object list: the ID, marked when selected or held. */
  function RowLabel(o: GameObject, selected: GameObject?, held: GameObject?): string {
    o.id + (if o == selected then " (Selected)" else "") + (if o == held then " (Held)" else "")
  }

  function RowRect(y: real): Widgets.Rect {
    Widgets.Rect(Widgets.UiPadding + Widgets.UiPadding, y, Widgets.UiPanelWidth - Widgets.UiPadding * 2.0, Widgets.UiButtonHeight)
  }

  /** The object list from row y on: every object but the ground gets a
      button, and a clicked row selects its object. The token after the
      list and the selection. */
  function ObjectList(p: Widgets.Pointer, objs: seq<GameObject>, selected: GameObject?, held: GameObject?, y: real):
    (r: (string, GameObject?))
    ensures r.1 == selected || r.1 in objs
    ensures r.1 != selected ==> r.1.id != GroundPlaneId
    decreases |objs|
  {
    if objs == [] then (p.active, selected)
    else if objs[0].id == GroundPlaneId then ObjectList(p, objs[1..], selected, held, y)
    else
      var b := Widgets.EngineButton(p, RowRect(y), RowLabel(objs[0], selected, held));
      ObjectList(p.(active := b.active), objs[1..], if b.clicked then objs[0] else selected, held, y + Widgets.UiButtonHeight + Widgets.UiElementSpacing)
  }

  /** The y of the kinematic toggle, below the six sliders and six read-only lines. */
  const ToggleY: real := 357.0

  function ToggleRect(width: nat): Widgets.Rect {
    Widgets.Rect(Widgets.PanelX(width), ToggleY, Widgets.UiPanelWidth - Widgets.UiPadding * 2.0, Widgets.UiButtonHeight)
  }

  /** The spawn menu: a 400 x 300 panel centred in the window holding two
      80 x 80 items, the cube and, 90 to the right, the sphere. */
  function SpawnItemRect(width: nat, height: nat, column: nat): Widgets.Rect {
    var panelX := (width as real - 400.0) / 2.0;
    var panelY := (height as real - 300.0) / 2.0;
    Widgets.Rect(panelX + Widgets.UiPadding + (column as real) * 90.0, panelY + Widgets.UiPadding + UiTextHeight + Widgets.UiElementSpacing, 80.0, 80.0)
  }

  /** The serial-number invariant of Valid survives appending an object
      whose ID ends in the next serial. */
  lemma AppendedSerial(scene: seq<GameObject>, o: GameObject, prefix: string)
    requires |scene| >= 1 && scene[0].id == GroundPlaneId
    requires forall i :: 1 <= i < |scene| ==> Text.IdNumber(scene[i].id) == Some(i)
    requires o.id == prefix + "_" + Text.Decimal(|scene|)
    ensures o.id != GroundPlaneId
    ensures var s := scene + [o]; forall i :: 1 <= i < |s| ==> Text.IdNumber(s[i].id) == Some(i)
  {
    Text.IdNumberOf(prefix, |scene|);
    Text.NoSerialWithoutUnderscore(GroundPlaneId);
    var s := scene + [o];
    forall i | 1 <= i < |s|
      ensures Text.IdNumber(s[i].id) == Some(i)
    {
      if i < |scene| {
        assert s[i] == scene[i];
      }
    }
  }

  const CubeButton: string := "Spawn Cube Button"
  const SphereButton: string := "Spawn Sphere Button"

  /** The two spawn items lie side by side with a gap, so one UI pass never
      clicks both: a spawn menu frame creates at most one object. */
  lemma SpawnItemsExclusive(p: Widgets.Pointer, width: nat, height: nat)
    ensures var cube := Widgets.EngineButton(p, SpawnItemRect(width, height, 0), CubeButton);
      var sphere := Widgets.EngineButton(p.(active := cube.active), SpawnItemRect(width, height, 1), SphereButton);
      !(cube.clicked && sphere.clicked)
  {}

  // ---------------------------------------------------------------------
  // The application

  /** What the ray test says about object `o` for a ray from `origin`:
      the ground and the held object are not pickable. */
  function ProbeOf(o: GameObject, held: GameObject?, origin: Vec3, dir: Vec3): Probe
    reads o
  {
    if o.id == GroundPlaneId || o == held then Probe(false, false, 0.0)
    else
      var (hit, dist) := Slab.Intersect(origin, dir, o.WorldMin(), o.WorldMax());
      Probe(true, hit, dist)
  }

  function ProbesOf(objs: seq<GameObject>, held: GameObject?, origin: Vec3, dir: Vec3): (r: seq<Probe>)
    reads objs
    ensures |r| == |objs|
  {
    if objs == [] then []
    else ProbesOf(objs[..|objs| - 1], held, origin, dir) + [ProbeOf(objs[|objs| - 1], held, origin, dir)]
  }

  lemma {:induction false} ProbesOfAt(objs: seq<GameObject>, held: GameObject?, origin: Vec3, dir: Vec3, i: nat)
    requires i < |objs|
    ensures ProbesOf(objs, held, origin, dir)[i] == ProbeOf(objs[i], held, origin, dir)
    decreases |objs|
  {
    if i < |objs| - 1 {
      ProbesOfAt(objs[..|objs| - 1], held, origin, dir, i);
    }
  }

  lemma ProbesOfSnoc(objs: seq<GameObject>, held: GameObject?, origin: Vec3, dir: Vec3, i: nat)
    requires i < |objs|
    ensures ProbesOf(objs[..i + 1], held, origin, dir) ==
      ProbesOf(objs[..i], held, origin, dir) + [ProbeOf(objs[i], held, origin, dir)]
  {
    assert objs[..i + 1][..i] == objs[..i];
  }

  class App {
    var width: nat
    var height: nat
    var view: View
    var hand: Hand
    var pointer: Widgets.Pointer
    /** The E menu: isEGUIVisible and the debounce flag eKeyWasPressed. */
    var menu: Camera.Toggle
    var physicsAccumulator: real
    var objects: seq<GameObject>
    var selectedObject: GameObject?
    var heldObject: GameObject?
    var nextObjectID: nat

    /** The normalised view direction for a yaw and pitch in degrees
        (the trigonometry of updateCameraAndProjection). */
    const frontOf: (real, real) -> Vec3
    /** mgl32's Vec3.Normalize. */
    const normalize: Vec3 -> Vec3
    /** The unprojection of getRayFromMouse: the world direction of the ray
        from the camera (position, front, up) through NDC (x, y) at an aspect ratio. */
    const rayDirection: (Vec3, Vec3, Vec3, real, real, real) -> Vec3

    ghost predicate Valid()
      reads this
    {
      SceneValid() && HandValid() && ViewValid() && 0.0 <= physicsAccumulator < Physics.PhysicsTimestep
    }

    /** The ground plane comes first, every other object carries its index as
        serial, the objects are distinct, and the hand and the selection point
        into the scene (the hand never at the ground). */
    ghost predicate SceneValid()
      reads this
    {
      && |objects| >= 1 && objects[0].id == GroundPlaneId
      && (forall i :: 1 <= i < |objects| ==> Text.IdNumber(objects[i].id) == Some(i))
      && nextObjectID == |objects|
      && (forall i, j :: 0 <= i < j < |objects| ==> objects[i] != objects[j])
      && (heldObject != null ==> heldObject in objects && heldObject.id != GroundPlaneId)
      && (selectedObject != null ==> selectedObject in objects)
    }

    /** Rotating needs a held object; the hold distance stays in its bounds. */
    ghost predicate HandValid()
      reads this
    {
      && (hand.rotating ==> heldObject != null)
      && MinHoldDistance <= hand.holdDistance <= MaxHoldDistance
    }

    /** The camera's pitch is clamped, its front follows yaw and pitch, and
        the window has an area. */
    ghost predicate ViewValid()
      reads this
    {
      && -Camera.PitchLimit <= view.look.pitch <= Camera.PitchLimit
      && view.front == frontOf(view.look.yaw, view.look.pitch)
      && width > 0 && height > 0
    }

    /** Object IDs are unique. */
    lemma IdsUnique()
      requires Valid()
      ensures forall i, j :: 0 <= i < j < |objects| ==> objects[i].id != objects[j].id
    {
      Text.NoSerialWithoutUnderscore(GroundPlaneId);
    }

    /** Mouse-look is on: grabbed, not rotating a held object, no active widget. */
    predicate LookActive()
      reads this
    {
      view.grabbed && !hand.rotating && pointer.active == ""
    }

    /** Where updateEngine puts the held object. */
    function HoldTarget(): Vec3
      reads this
    {
      view.pos.Add(view.front.Mul(hand.holdDistance))
    }

    // --- picking ---

    /** The ray of getRayFromMouse: from the camera through the cursor. */
    function RayDirection(): Vec3
      reads this`width, this`height, this`pointer, this`view
      requires width > 0 && height > 0
    {
      var (nx, ny) := Camera.Ndc(pointer.x, pointer.y, width as real, height as real);
      rayDirection(view.pos, view.front, view.up, nx, ny, width as real / height as real)
    }

    /** The index of the object tryPickObject would pick now. */
    function PickTarget(): Option<nat>
      reads this`width, this`height, this`pointer, this`view, this`heldObject, this`objects, objects
      requires width > 0 && height > 0
    {
      Best(ProbesOf(objects, heldObject, view.pos, RayDirection()))
    }

    /** The pick is never the ground and never the object already held. */
    lemma PickTargetEligible()
      requires width > 0 && height > 0
      ensures PickTarget().Some? ==>
        PickTarget().value < |objects| &&
        objects[PickTarget().value].id != GroundPlaneId && objects[PickTarget().value] != heldObject
    {
      if PickTarget().Some? {
        ProbesOfAt(objects, heldObject, view.pos, RayDirection(), PickTarget().value);
      }
    }

    /** The pick is hit by the ray within PickupRange, no pickable object is
        hit nearer, and every pickable object listed before it is hit farther. */
    lemma PickTargetNearest()
      requires width > 0 && height > 0
      ensures PickTarget().Some? ==>
        var k := PickTarget().value;
        var d := RayDirection();
        k < |objects| && ProbeOf(objects[k], heldObject, view.pos, d).hit && ProbeOf(objects[k], heldObject, view.pos, d).dist < PickupRange &&
        forall j :: 0 <= j < |objects| && Qualifies(ProbeOf(objects[j], heldObject, view.pos, d)) ==>
          ProbeOf(objects[k], heldObject, view.pos, d).dist <= ProbeOf(objects[j], heldObject, view.pos, d).dist &&
          (j < k ==> ProbeOf(objects[k], heldObject, view.pos, d).dist < ProbeOf(objects[j], heldObject, view.pos, d).dist)
    {
      var d := RayDirection();
      var ps := ProbesOf(objects, heldObject, view.pos, d);
      BestIsNearest(ps);
      forall j | 0 <= j < |objects|
        ensures ps[j] == ProbeOf(objects[j], heldObject, view.pos, d)
      {
        ProbesOfAt(objects, heldObject, view.pos, d, j);
      }
    }

    /** The pick in terms of the boxes themselves: the cursor ray meets the
        picked box at the reported distance, and meets no other pickable
        box at a smaller parameter. */
    lemma PickTargetMeetsNearest()
      requires width > 0 && height > 0
      ensures PickTarget().Some? ==>
        var k := PickTarget().value;
        var d := RayDirection();
        k < |objects| &&
        var t := ProbeOf(objects[k], heldObject, view.pos, d).dist;
        Slab.Reaches(view.pos, d, objects[k].WorldMin(), objects[k].WorldMax(), t) &&
        forall j, t0 :: (0 <= j < |objects| && objects[j].id != GroundPlaneId && objects[j] != heldObject &&
          Slab.Reaches(view.pos, d, objects[j].WorldMin(), objects[j].WorldMax(), t0)) ==> t <= t0
    {
      PickTargetNearest();
      if PickTarget().Some? {
        var k := PickTarget().value;
        var d := RayDirection();
        var t := ProbeOf(objects[k], heldObject, view.pos, d).dist;
        Slab.HitReaches(view.pos, d, objects[k].WorldMin(), objects[k].WorldMax());
        forall j, t0 | 0 <= j < |objects| && objects[j].id != GroundPlaneId && objects[j] != heldObject &&
            Slab.Reaches(view.pos, d, objects[j].WorldMin(), objects[j].WorldMax(), t0)
          ensures t <= t0
        {
          Slab.ReachedHits(view.pos, d, objects[j].WorldMin(), objects[j].WorldMax(), t0);
          if t0 < t {
            assert Qualifies(ProbeOf(objects[j], heldObject, view.pos, d));
          }
        }
      }
    }

    /** Nothing is picked exactly when no pickable object is hit within range. */
    lemma PickTargetNoneIff()
      requires width > 0 && height > 0
      ensures PickTarget().None? <==>
        forall j :: 0 <= j < |objects| ==> !Qualifies(ProbeOf(objects[j], heldObject, view.pos, RayDirection()))
    {
      var d := RayDirection();
      var ps := ProbesOf(objects, heldObject, view.pos, d);
      BestNoneIff(ps);
      forall j | 0 <= j < |objects|
        ensures ps[j] == ProbeOf(objects[j], heldObject, view.pos, d)
      {
        ProbesOfAt(objects, heldObject, view.pos, d, j);
      }
    }

    /** What tryPickObject leaves behind when it picks object k, or nothing. */
    twostate predicate PickEffect(k: Option<nat>, new oldHeld: GameObject?)
      reads this`heldObject, this`objects, objects
      requires objects == old(objects)
    {
      match k
      case None => heldObject == oldHeld && OthersUnchanged(null)
      case Some(i) =>
        i < |objects| && heldObject == objects[i] &&
        objects[i].Body() == old(objects[i].Body()).(isKinematic := true, velocity := Zero, angularVelocity := Zero) &&
        OthersUnchanged(objects[i])
    }

    /** No object but `o` has changed its physics fields. */
    twostate predicate OthersUnchanged(new o: GameObject?)
      reads this`objects, objects
      requires objects == old(objects)
    {
      forall i :: 0 <= i < |objects| && objects[i] != o ==> objects[i].Body() == old(objects[i].Body())
    }

    /** What releaseHeldObject does to the object it lets go of. */
    twostate predicate Thrown(o: GameObject, wasRotating: bool)
      reads this`view, o
    {
      o.Body() == old(o.Body()).(
        isKinematic := false,
        velocity := normalize(old(view.front)).Mul(ThrowForceMagnitude),
        angularVelocity := if wasRotating then old(o.angularVelocity) else Zero)
    }

    /** What releasing leaves behind: the hand is empty and, if something
        was held, it was thrown and R-rotation has stopped. */
    twostate predicate LetGo(oldHeld: GameObject?, oldHand: Hand)
      reads this`heldObject, this`hand, this`view, oldHeld
    {
      && heldObject == null
      && (oldHeld == null ==> hand == oldHand)
      && (oldHeld != null ==> hand == oldHand.(rotating := false) && Thrown(oldHeld, oldHand.rotating))
    }

    /** One turn of tryPickObject's loop: skip the ground and the held
        object, otherwise test the ray against the object's world box; `take`
        says whether it is a hit within range nearer than `closestHit`. */
    method Consider(obj: GameObject, origin: Vec3, direction: Vec3, closestHit: real) returns (take: bool, dist: real)
      requires origin == view.pos
      ensures var p := ProbeOf(obj, heldObject, origin, direction);
        take == (Qualifies(p) && p.dist < closestHit) && (take ==> dist == p.dist)
    {
      take, dist := false, 0.0;
      if obj.id == GroundPlaneId || obj == heldObject {
        return;
      }
      var scaledMin := obj.position.Add(obj.boundingBox.min.CompMul(obj.scale));
      var scaledMax := obj.position.Add(obj.boundingBox.max.CompMul(obj.scale));
      var hit;
      hit, dist := Slab.IntersectRayAabb(origin, direction, scaledMin, scaledMax);
      take := hit && dist < PickupRange && dist < closestHit;
    }

    /** The search state after the first i objects: the nearest eligible
        hit so far, its distance, and the probes' Best. */
    ghost predicate Scanned(direction: Vec3, i: nat, best: Option<nat>, closestHit: real, hitObject: GameObject?)
      reads this, objects
    {
      && i <= |objects|
      && var ps := ProbesOf(objects[..i], heldObject, view.pos, direction);
      && best == Best(ps)
      && (best.None? ==> hitObject == null && closestHit == PickupRange + 1.0)
      && (best.Some? ==> best.value < i && hitObject == objects[best.value] && closestHit == ps[best.value].dist)
    }

    /** One object of the search loop. */
    method ScanStep(direction: Vec3, i: nat, ghost best: Option<nat>, closestHit: real, hitObject: GameObject?)
      returns (ghost best': Option<nat>, closestHit': real, hitObject': GameObject?)
      requires i < |objects| && Scanned(direction, i, best, closestHit, hitObject)
      ensures Scanned(direction, i + 1, best', closestHit', hitObject')
    {
      var obj := objects[i];
      ghost var ps := ProbesOf(objects[..i], heldObject, view.pos, direction);
      ghost var probe := ProbeOf(obj, heldObject, view.pos, direction);
      ProbesOfSnoc(objects, heldObject, view.pos, direction, i);
      PickStep(ps, probe, best, closestHit);
      best', closestHit', hitObject' := best, closestHit, hitObject;
      var take, dist := Consider(obj, view.pos, direction, closestHit);
      if take {
        closestHit' := dist;
        hitObject' := obj;
        best' := Some(i);
      }
    }

    /** The search loop of tryPickObject along one ray from the camera: the
        nearest eligible object hit within range, the earliest on a tie. */
    method ScanObjects(direction: Vec3) returns (hitObject: GameObject?)
      ensures var k := Best(ProbesOf(objects, heldObject, view.pos, direction));
        (k.None? ==> hitObject == null) && (k.Some? ==> k.value < |objects| && hitObject == objects[k.value])
    {
      var closestHit := PickupRange + 1.0;
      hitObject := null;
      ghost var best: Option<nat> := None;
      var i := 0;
      while i < |objects|
        invariant 0 <= i <= |objects|
        invariant Scanned(direction, i, best, closestHit, hitObject)
      {
        best, closestHit, hitObject := ScanStep(direction, i, best, closestHit, hitObject);
        i := i + 1;
      }
      assert objects[..|objects|] == objects;
    }

    /** The object tryPickObject would pick: the ray through the cursor, then the scan. */
    method FindPick() returns (hitObject: GameObject?)
      requires width > 0 && height > 0
      ensures PickTarget().None? ==> hitObject == null
      ensures PickTarget().Some? ==> hitObject == objects[PickTarget().value]
    {
      var ndc := Camera.Ndc(pointer.x, pointer.y, width as real, height as real);
      var direction := rayDirection(view.pos, view.front, view.up, ndc.0, ndc.1, width as real / height as real);
      hitObject := ScanObjects(direction);
    }

    /** What picking does to the picked object: kinematic and at rest. */
    static method Grab(o: GameObject)
      modifies o
      ensures o.Body() == old(o.Body()).(isKinematic := true, velocity := Zero, angularVelocity := Zero)
    {
      o.isKinematic := true;
      o.velocity := Zero;
      o.angularVelocity := Zero;
    }

    /** tryPickObject: the picked object becomes held, kinematic and still. */
    method TryPickObject()
      requires Valid()
      modifies this`heldObject, objects
      ensures Valid()
      ensures PickEffect(old(PickTarget()), old(heldObject))
    {
      ghost var k := PickTarget();
      var hitObject := FindPick();
      if hitObject != null {
        PickTargetEligible();
        TakeHold(hitObject, k.value);
      }
    }

    /** The picked object k becomes held, kinematic and still. */
    method TakeHold(o: GameObject, ghost k: nat)
      requires Valid() && k < |objects| && o == objects[k] && o.id != GroundPlaneId
      modifies this`heldObject, o
      ensures Valid()
      ensures PickEffect(Some(k), old(heldObject))
    {
      heldObject := o;
      Grab(o);
    }

    /** releaseHeldObject: drop and throw along the view direction; the spin
        survives only while R-rotating. */
    method ReleaseHeldObject()
      requires Valid()
      modifies this`heldObject, this`hand, heldObject
      ensures Valid()
      ensures LetGo(old(heldObject), old(hand))
    {
      if heldObject != null {
        heldObject.isKinematic := false;
        var throwDirection := normalize(view.front);
        heldObject.velocity := throwDirection.Mul(ThrowForceMagnitude);
        if !hand.rotating {
          heldObject.angularVelocity := Zero;
        }
        heldObject := null;
        hand := hand.(rotating := false);
      }
    }

    // --- the window callbacks ---

    /** The cursor callback: mouse-look, or spinning the held object while
        R-rotating, or else re-arming the first-sample flag. The source
        re-reads the cursor with GetCursorPos on a first rotation sample;
        that is the position this event reports. */
    method OnCursorPos(xpos: real, ypos: real)
      requires Valid()
      modifies this`pointer, this`view, this`hand, heldObject
      ensures Valid()
      ensures pointer == old(pointer).(x := xpos, y := ypos)
      ensures heldObject == old(heldObject)
      ensures old(LookActive()) ==>
        var l := Camera.LookStep(old(view.look), old(view.firstMouse), xpos, ypos);
        view == old(view).(look := l, firstMouse := false, front := frontOf(l.yaw, l.pitch)) &&
        hand == old(hand) && (heldObject != null ==> heldObject.Body() == old(heldObject.Body()))
      ensures !old(LookActive()) && old(hand.rotating) ==>
        var lastX := if old(view.firstMouse) then xpos else old(hand.lastRotX);
        var lastY := if old(view.firstMouse) then ypos else old(hand.lastRotY);
        view == old(view) && hand == old(hand).(lastRotX := xpos, lastRotY := ypos) &&
        heldObject.Body() == old(heldObject.Body()).(
          angularVelocity := Vec3((lastY - ypos) * SpinFactor, (xpos - lastX) * SpinFactor, 0.0))
      ensures !old(LookActive()) && !old(hand.rotating) ==>
        view == old(view).(firstMouse := true) && hand == old(hand) &&
        (heldObject != null ==> heldObject.Body() == old(heldObject.Body()))
    {
      pointer := pointer.(x := xpos, y := ypos);
      if view.grabbed && !hand.rotating && pointer.active == "" {
        MouseLook(xpos, ypos);
      } else if hand.rotating {
        SpinHeld(xpos, ypos);
      } else {
        view := view.(firstMouse := true);
      }
    }

    /** The mouse-look branch of the cursor callback: yaw and pitch move by
        the sensitivity-scaled offsets, the pitch clamped. */
    method MouseLook(xpos: real, ypos: real)
      requires Valid()
      modifies this`view
      ensures Valid()
      ensures var l := Camera.LookStep(old(view.look), old(view.firstMouse), xpos, ypos);
        view == old(view).(look := l, firstMouse := false, front := frontOf(l.yaw, l.pitch))
    {
      var lastX := view.look.lastX;
      var lastY := view.look.lastY;
      if view.firstMouse {
        lastX, lastY := xpos, ypos;
        view := view.(firstMouse := false);
      }
      var xoffset := (xpos - lastX) * Camera.MouseSensitivity;
      var yoffset := (lastY - ypos) * Camera.MouseSensitivity;
      var pitch := Camera.ClampPitch(view.look.pitch + yoffset);
      view := view.(look := Camera.Look(view.look.yaw + xoffset, pitch, xpos, ypos));
      view := view.(front := frontOf(view.look.yaw, view.look.pitch));
    }

    /** The R-rotation branch of the cursor callback: the cursor offsets
        since the last sample become the held object's spin. */
    method SpinHeld(xpos: real, ypos: real)
      requires Valid() && hand.rotating
      modifies this`hand, heldObject
      ensures Valid()
      ensures var lastX := if view.firstMouse then xpos else old(hand.lastRotX);
        var lastY := if view.firstMouse then ypos else old(hand.lastRotY);
        hand == old(hand).(lastRotX := xpos, lastRotY := ypos) &&
        heldObject.Body() == old(heldObject.Body()).(
          angularVelocity := Vec3((lastY - ypos) * SpinFactor, (xpos - lastX) * SpinFactor, 0.0))
    {
      if view.firstMouse {
        hand := hand.(lastRotX := xpos, lastRotY := ypos);
      }
      var xoffset := xpos - hand.lastRotX;
      var yoffset := hand.lastRotY - ypos;
      hand := hand.(lastRotX := xpos, lastRotY := ypos);
      if heldObject != null {
        heldObject.angularVelocity := Vec3(yoffset * SpinFactor, xoffset * SpinFactor, 0.0);
      }
    }

    /** A left press: the pressed flag for the widgets, and a pick attempt
        while the cursor is grabbed and no widget is active. */
    method OnLeftPress()
      requires Valid()
      modifies this`pointer, this`heldObject, objects
      ensures Valid()
      ensures pointer == old(pointer).(pressed := true, released := false)
      ensures old(view.grabbed && pointer.active == "") ==> PickEffect(old(PickTarget()), old(heldObject))
      ensures !old(view.grabbed && pointer.active == "") ==> heldObject == old(heldObject) && OthersUnchanged(null)
    {
      // the source sets the flags first; the pick reads only the cursor
      // position, so the order makes no difference
      if view.grabbed && pointer.active == "" {
        TryPickObject();
      }
      pointer := pointer.(pressed := true, released := false);
    }

    /** A left release: the released flag for the widgets, and the held
        object, if any, is thrown. The active-element token is left for
        EndFrame to free. */
    method OnLeftRelease()
      requires Valid()
      modifies this`pointer, this`heldObject, this`hand, heldObject
      ensures Valid()
      ensures pointer == old(pointer).(pressed := false, released := true)
      ensures LetGo(old(heldObject), old(hand))
    {
      pointer := pointer.(released := true, pressed := false);
      if heldObject != null {
        ReleaseHeldObject();
      }
    }

    /** The mouse-button callback: left press and release as above, the
        right button's state recorded, other buttons ignored. */
    method OnMouseButton(button: MouseButton, action: Action)
      requires Valid()
      modifies this`pointer, this`view, this`heldObject, this`hand, objects
      ensures Valid()
      ensures button != LeftButton ==> pointer == old(pointer) && heldObject == old(heldObject) && hand == old(hand)
      ensures button == RightButton ==> view == old(view).(rightPressed := action == Press)
      ensures button != RightButton ==> view == old(view)
    {
      if button == LeftButton {
        if action == Press {
          OnLeftPress();
        } else {
          OnLeftRelease();
        }
      } else if button == RightButton {
        view := view.(rightPressed := action == Press);
      }
    }

    /** The scroll callback: while holding, the wheel moves the object in or
        out, clamped to [MinHoldDistance, MaxHoldDistance]. */
    method OnScroll(xoff: real, yoff: real)
      requires Valid()
      modifies this`hand
      ensures Valid()
      ensures heldObject != null ==>
        hand == old(hand).(holdDistance :=
          Widgets.Clamp(old(hand.holdDistance) - yoff * ScrollSensitivity, MinHoldDistance, MaxHoldDistance))
      ensures heldObject == null ==> hand == old(hand)
    {
      if heldObject != null {
        hand := hand.(holdDistance :=
          Widgets.Clamp(hand.holdDistance - yoff * ScrollSensitivity, MinHoldDistance, MaxHoldDistance));
      }
    }

    /** The framebuffer-size callback: the new size, and the view direction
        recomputed from yaw and pitch (which leaves it as it was). */
    method OnFramebufferSize(w: nat, h: nat)
      requires Valid() && w > 0 && h > 0
      modifies this`width, this`height, this`view
      ensures Valid()
      ensures width == w && height == h && view == old(view)
    {
      width := w;
      height := h;
      view := view.(front := frontOf(view.look.yaw, view.look.pitch));
    }

    /** One event, to its callback. */
    method Dispatch(e: Event)
      requires Valid() && EventOk(e)
      modifies this`pointer, this`view, this`hand, this`heldObject, this`width, this`height, objects
      ensures Valid()
    {
      match e
      case CursorPos(x, y) => OnCursorPos(x, y);
      case MouseClick(b, a) => OnMouseButton(b, a);
      case Scroll(xo, yo) => OnScroll(xo, yo);
      case FramebufferSize(w, h) => OnFramebufferSize(w, h);
    }

    // --- processInput ---

    /** ESC, sampled once per frame (level-triggered): while held down it
        toggles the grab every frame. Ungrabbing lets go of the held object. */
    method HandleEscape(down: bool)
      requires Valid()
      modifies this`view, this`heldObject, this`hand, heldObject
      ensures Valid()
      ensures !down ==> view == old(view) && heldObject == old(heldObject) && hand == old(hand)
      ensures down ==> view == old(view).(grabbed := !old(view.grabbed), firstMouse := true)
      ensures down && old(view.grabbed) ==> LetGo(old(heldObject), old(hand))
      ensures down && !old(view.grabbed) ==> heldObject == old(heldObject) && hand == old(hand)
    {
      if down {
        if view.grabbed {
          view := view.(grabbed := false, firstMouse := true);
          if heldObject != null {
            ReleaseHeldObject();
          }
        } else {
          view := view.(grabbed := true, firstMouse := true);
        }
      }
    }

    /** The E key, debounced: a rising edge flips the spawn menu. Opening it
        ungrabs the cursor and lets go of the held object; closing it grabs
        the cursor again. */
    method HandleEKey(down: bool)
      requires Valid()
      modifies this`menu, this`view, this`heldObject, this`hand, heldObject
      ensures Valid()
      ensures menu == Camera.ToggleStep(old(menu), down)
      ensures menu.on != old(menu.on) && menu.on ==>
        view == old(view).(grabbed := false, firstMouse := true) && LetGo(old(heldObject), old(hand))
      ensures menu.on != old(menu.on) && !menu.on ==>
        view == old(view).(grabbed := true, firstMouse := true) && heldObject == old(heldObject) && hand == old(hand)
      ensures menu.on == old(menu.on) ==> view == old(view) && heldObject == old(heldObject) && hand == old(hand)
    {
      if down && !menu.wasPressed {
        menu := menu.(on := !menu.on);
        if menu.on {
          view := view.(grabbed := false);
          if heldObject != null {
            ReleaseHeldObject();
          }
        } else {
          view := view.(grabbed := true);
        }
        view := view.(firstMouse := true);
      }
      menu := menu.(wasPressed := down);
    }

    /** The R key, while something is held: pressing starts rotation mode
        and takes the cursor position as the reference; letting go ends it. */
    method HandleRKey(down: bool)
      requires Valid()
      modifies this`hand
      ensures Valid()
      ensures heldObject == null ==> hand == old(hand)
      ensures heldObject != null && down && !old(hand.rotating) ==>
        hand == old(hand).(rotating := true, lastRotX := pointer.x, lastRotY := pointer.y)
      ensures heldObject != null && down && old(hand.rotating) ==> hand == old(hand)
      ensures heldObject != null && !down ==> hand == old(hand).(rotating := false)
    {
      if heldObject != null {
        if down {
          if !hand.rotating {
            hand := hand.(rotating := true, lastRotX := pointer.x, lastRotY := pointer.y);
          }
        } else if hand.rotating {
          hand := hand.(rotating := false);
        }
      }
    }

    /** WASD movement, only while mouse-look is on: Shift doubles the speed,
        Caps Lock multiplies it by five, and the step is speed times frame time. */
    method MoveCamera(keys: Keys, dt: real)
      requires Valid()
      modifies this`view
      ensures Valid()
      ensures old(LookActive()) ==> view == old(view).(pos := Camera.Walk(old(view.pos), view.front, view.up,
        Camera.CurrentSpeed(keys.leftShift || keys.rightShift, keys.capsLock) * dt,
        Camera.MoveKeys(keys.w, keys.s, keys.a, keys.d), normalize))
      ensures !old(LookActive()) ==> view == old(view)
    {
      if view.grabbed && !hand.rotating && pointer.active == "" {
        var moveSpeed := Camera.CurrentSpeed(keys.leftShift || keys.rightShift, keys.capsLock) * dt;
        var pos := Camera.WalkKeys(view.pos, view.front, view.up, moveSpeed,
          Camera.MoveKeys(keys.w, keys.s, keys.a, keys.d), normalize);
        ghost var walked := view.(pos := pos);
        view := view.(pos := pos);
        view := view.(front := frontOf(view.look.yaw, view.look.pitch));
        assert view == walked;
      }
    }

    /** glfw.PollEvents: every queued event through its callback, in order. */
    method PollEvents(events: seq<Event>)
      requires Valid()
      requires forall k :: 0 <= k < |events| ==> EventOk(events[k])
      modifies this`pointer, this`view, this`hand, this`heldObject, this`width, this`height, objects
      ensures Valid()
    {
      var i := 0;
      while i < |events|
        invariant 0 <= i <= |events|
        invariant Valid()
      {
        Dispatch(events[i]);
        i := i + 1;
      }
    }

    /** ESC, then E, as processInput samples them. */
    method ToggleKeys(escape: bool, e: bool)
      requires Valid()
      modifies this`menu, this`view, this`heldObject, this`hand, heldObject
      ensures Valid()
      ensures menu == Camera.ToggleStep(old(menu), e)
      ensures menu.on && !old(menu.on) ==> heldObject == null && !view.grabbed
      ensures !menu.on && old(menu.on) ==> view.grabbed
    {
      HandleEscape(escape);
      HandleEKey(e);
    }

    /** processInput: the queued window events through their callbacks,
        then ESC, E, R and WASD as sampled this frame. */
    method ProcessInput(events: seq<Event>, keys: Keys, dt: real)
      requires Valid()
      requires forall k :: 0 <= k < |events| ==> EventOk(events[k])
      modifies this`pointer, this`view, this`hand, this`heldObject, this`width, this`height, this`menu, objects
      ensures Valid()
      ensures menu == Camera.ToggleStep(old(menu), keys.e)
      // opening the spawn menu always frees the cursor and empties the hand
      ensures menu.on && !old(menu.on) ==> heldObject == null && !view.grabbed
      // closing it grabs the cursor (ESC is handled before E)
      ensures !menu.on && old(menu.on) ==> view.grabbed
    {
      PollEvents(events);
      ToggleKeys(keys.escape, keys.e);
      HandleRKey(keys.r);
      MoveCamera(keys, dt);
    }

    // --- updateEngine ---

    /** updatePhysics: one fixed step for every object. */
    method UpdatePhysics(dt: real)
      requires forall i, j :: 0 <= i < j < |objects| ==> objects[i] != objects[j]
      modifies objects
      ensures forall i :: 0 <= i < |objects| ==> objects[i].Body() == Physics.Step(old(objects[i].Body()), dt)
    {
      var i := 0;
      while i < |objects|
        invariant 0 <= i <= |objects|
        invariant forall j :: 0 <= j < i ==> objects[j].Body() == Physics.Step(old(objects[j].Body()), dt)
        invariant forall j :: i <= j < |objects| ==> objects[j].Body() == old(objects[j].Body())
      {
        objects[i].StepPhysics(dt);
        i := i + 1;
      }
    }

    /** The fixed-step loop of updateEngine: the accumulator grows by the
        frame time and is drained one PhysicsTimestep at a time, each step
        a physics update of every object. */
    method RunPhysicsSteps(dt: real) returns (ghost n: nat)
      requires forall i, j :: 0 <= i < j < |objects| ==> objects[i] != objects[j]
      requires physicsAccumulator >= 0.0 && dt >= 0.0
      modifies this`physicsAccumulator, objects
      ensures (n, physicsAccumulator) == Physics.Drain(old(physicsAccumulator) + dt)
      ensures forall i :: 0 <= i < |objects| ==>
        objects[i].Body() == Physics.Iterate(old(objects[i].Body()), Physics.PhysicsTimestep, n)
    {
      physicsAccumulator := physicsAccumulator + dt;
      ghost var total := Physics.Drain(physicsAccumulator);
      n := 0;
      while physicsAccumulator >= Physics.PhysicsTimestep
        invariant physicsAccumulator >= 0.0 && n <= total.0
        invariant Physics.Drain(physicsAccumulator) == (total.0 - n, total.1)
        invariant forall i :: 0 <= i < |objects| ==>
          objects[i].Body() == Physics.Iterate(old(objects[i].Body()), Physics.PhysicsTimestep, n)
        decreases total.0 - n
      {
        forall i | 0 <= i < |objects|
          ensures Physics.Iterate(old(objects[i].Body()), Physics.PhysicsTimestep, n + 1) ==
            Physics.Step(Physics.Iterate(old(objects[i].Body()), Physics.PhysicsTimestep, n), Physics.PhysicsTimestep)
        {
          Physics.IterateSnoc(old(objects[i].Body()), Physics.PhysicsTimestep, n);
        }
        UpdatePhysics(Physics.PhysicsTimestep);
        physicsAccumulator := physicsAccumulator - Physics.PhysicsTimestep;
        n := n + 1;
      }
    }

    /** The held-object part of updateEngine: put at the hold point, made
        kinematic, and turned by its angular velocity while R-rotating. */
    method PlaceHeldObject(dt: real)
      modifies heldObject
      ensures heldObject != null ==>
        heldObject.Body() == Physics.HoldPose(old(heldObject.Body()), HoldTarget(), hand.rotating, dt)
    {
      if heldObject != null {
        var targetPos := view.pos.Add(view.front.Mul(hand.holdDistance));
        heldObject.position := targetPos;
        heldObject.isKinematic := true;
        if hand.rotating {
          heldObject.rotation := heldObject.rotation.Add(heldObject.angularVelocity.Mul(dt));
        }
      }
    }

    /** updateEngine: the fixed steps, then the held object. The frame time
        is never negative. */
    method UpdateEngine(dt: real)
      requires Valid() && dt >= 0.0
      modifies this`physicsAccumulator, objects
      ensures Valid()
      ensures physicsAccumulator == Physics.Drain(old(physicsAccumulator) + dt).1
      ensures var n := Physics.Drain(old(physicsAccumulator) + dt).0;
        forall i :: 0 <= i < |objects| && objects[i] != heldObject ==>
          objects[i].Body() == Physics.Iterate(old(objects[i].Body()), Physics.PhysicsTimestep, n)
      ensures var n := Physics.Drain(old(physicsAccumulator) + dt).0;
        heldObject != null ==>
          heldObject.Body() == Physics.HoldPose(Physics.Iterate(old(heldObject.Body()), Physics.PhysicsTimestep, n),
            HoldTarget(), hand.rotating, dt)
    {
      ghost var n := RunPhysicsSteps(dt);
      PlaceHeldObject(dt);
    }

    // --- the UI pass ---

    /** handleButton: the token goes to a pressed button; a click needs the
        hover, the release and the token. */
    method HandleButton(r: Widgets.Rect, name: string) returns (clicked: bool)
      modifies this`pointer
      ensures var b := Widgets.EngineButton(old(pointer), r, name);
        clicked == b.clicked && pointer == old(pointer).(active := b.active)
    {
      var isOver := Widgets.IsMouseOver(pointer.x, pointer.y, r);
      clicked := false;
      if isOver && pointer.pressed {
        pointer := pointer.(active := name);
      }
      if isOver && pointer.released && pointer.active == name {
        clicked := true;
      }
    }

    /** handleSlider, returning the value it writes through its pointer. */
    method HandleSlider(r: Widgets.Rect, id: string, value: real, lo: real, hi: real) returns (newValue: real)
      requires lo < hi && r.width > 0.0
      modifies this`pointer
      ensures var sl := Widgets.Slider(old(pointer), r, id, value, lo, hi);
        newValue == sl.value && pointer == old(pointer).(active := sl.active)
    {
      var isOver := Widgets.IsMouseOver(pointer.x, pointer.y, r);
      newValue := value;
      if pointer.active == id {
        var newNormalizedValue := (pointer.x - r.x) / r.width;
        newValue := lo + newNormalizedValue * (hi - lo);
        newValue := Widgets.Max(lo, Widgets.Min(hi, newValue));
      }
      if isOver && pointer.pressed && pointer.active == "" {
        pointer := pointer.(active := id);
      }
    }

    /** The object list of the Engine Tools panel. */
    method ObjectListPass()
      modifies this`pointer, this`selectedObject
      ensures pointer == old(pointer).(active := pointer.active)
      ensures selectedObject == old(selectedObject) || selectedObject in objects
      ensures (pointer.active, selectedObject) == ObjectList(old(pointer), objects, old(selectedObject), heldObject, ListTop)
    {
      var currentY := ListTop;
      var i := 0;
      while i < |objects|
        invariant 0 <= i <= |objects|
        invariant pointer == old(pointer).(active := pointer.active)
        invariant ObjectList(old(pointer), objects, old(selectedObject), heldObject, ListTop) ==
          ObjectList(pointer, objects[i..], selectedObject, heldObject, currentY)
      {
        var obj := objects[i];
        assert objects[i..][0] == obj && objects[i..][1..] == objects[i + 1..];
        if obj.id != GroundPlaneId {
          var caption := obj.id;
          if obj == selectedObject {
            caption := caption + " (Selected)";
          }
          if obj == heldObject {
            caption := caption + " (Held)";
          }
          assert caption == RowLabel(obj, selectedObject, heldObject);
          var clicked := HandleButton(RowRect(currentY), caption);
          if clicked {
            selectedObject := obj;
          }
          currentY := currentY + Widgets.UiButtonHeight + Widgets.UiElementSpacing;
        }
        i := i + 1;
      }
    }

    /** Three sliders editing the components of `v`, at top, top + 30 and top + 60. */
    method EditVector(top: real, prefix: string, v: Vec3, lo: real, hi: real) returns (w: Vec3)
      requires lo < hi
      modifies this`pointer
      ensures var (active, edited) := Widgets.VectorSliders(old(pointer), width, top, prefix, v, lo, hi);
        w == edited && pointer == old(pointer).(active := active)
    {
      ghost var r := Widgets.VectorSliders(pointer, width, top, prefix, v, lo, hi);
      var x := HandleSlider(Widgets.SliderRect(width, top), Widgets.AxisId(prefix, 0), v.x, lo, hi);
      w := v.With(0, x);
      assert r == Widgets.SlidersFrom(pointer, width, top, prefix, w, lo, hi, 1);
      var y := HandleSlider(Widgets.SliderRect(width, top + 30.0), Widgets.AxisId(prefix, 1), w.y, lo, hi);
      w := w.With(1, y);
      assert r == Widgets.SlidersFrom(pointer, width, top, prefix, w, lo, hi, 2);
      var z := HandleSlider(Widgets.SliderRect(width, top + 60.0), Widgets.AxisId(prefix, 2), w.z, lo, hi);
      w := w.With(2, z);
      assert r == Widgets.SlidersFrom(pointer, width, top, prefix, w, lo, hi, 3);
    }

    /** The six sliders of the properties panel: position x, y, z in
        [-20, 20] from y = 46, scale x, y, z in [0.01, 5] from y = 141. */
    method PropertySliders()
      requires selectedObject != null
      modifies this`pointer, selectedObject
      ensures var (a1, position) := Widgets.VectorSliders(old(pointer), width, 46.0, "pos", old(selectedObject.position), -20.0, 20.0);
        var (a2, scale) := Widgets.VectorSliders(old(pointer).(active := a1), width, 141.0, "scale", old(selectedObject.scale), 0.01, 5.0);
        pointer == old(pointer).(active := a2) &&
        selectedObject.Body() == old(selectedObject.Body()).(position := position, scale := scale)
    {
      var o := selectedObject;
      var position := EditVector(46.0, "pos", o.position, -20.0, 20.0);
      o.position := position;
      var scale := EditVector(141.0, "scale", o.scale, 0.01, 5.0);
      o.scale := scale;
    }

    /** The kinematic toggle of the properties panel, not offered for the
        held object. A click flips the flag; an object made dynamic starts
        from rest. */
    method KinematicToggle()
      requires selectedObject != null
      modifies this`pointer, selectedObject
      ensures selectedObject == heldObject ==>
        pointer == old(pointer) && selectedObject.Body() == old(selectedObject.Body())
      ensures selectedObject != heldObject ==>
        var b := Widgets.EngineButton(old(pointer), ToggleRect(width), KinematicLabel(old(selectedObject.isKinematic)));
        pointer == old(pointer).(active := b.active) &&
        (b.clicked ==> selectedObject.Body() == old(selectedObject.Body()).(
          isKinematic := !old(selectedObject.isKinematic),
          velocity := if old(selectedObject.isKinematic) then Zero else old(selectedObject.velocity),
          angularVelocity := if old(selectedObject.isKinematic) then Zero else old(selectedObject.angularVelocity))) &&
        (!b.clicked ==> selectedObject.Body() == old(selectedObject.Body()))
    {
      var o := selectedObject;
      if o != heldObject {
        var clicked := HandleButton(ToggleRect(width), KinematicLabel(o.isKinematic));
        if clicked {
          o.isKinematic := !o.isKinematic;
          if !o.isKinematic {
            o.velocity := Zero;
            o.angularVelocity := Zero;
          }
        }
      }
    }

    /** The properties panel of the selected object: its six sliders, then
        the kinematic toggle. */
    method PropertiesPanel()
      requires selectedObject != null
      modifies this`pointer, selectedObject
      ensures pointer == old(pointer).(active := pointer.active)
      ensures selectedObject.id == old(selectedObject.id)
    {
      PropertySliders();
      KinematicToggle();
    }

    /** drawCustomUI: the Import button (its click only logs), the object
        list, then the properties panel of the selected object. Everything
        but the token, the selection and the selected object's properties
        stays as it was. */
    method DrawCustomUI()
      requires Valid()
      modifies this`pointer, this`selectedObject, objects
      ensures Valid()
      ensures pointer == old(pointer).(active := pointer.active)
    {
      var clicked := HandleButton(ImportRect, ImportLabel);
      ObjectListPass();
      if selectedObject != null {
        PropertiesPanel();
      }
    }

    // --- object factories ---

    /** createGameObject: a new object at initialPos, unrotated, of unit
        scale, at rest and dynamic, appended to the scene; the serial counter
        moves on. The mesh and its GPU buffers are not modelled. */
    method CreateGameObject(id: string, initialPos: Vec3, mass: real, boundingBox: Box) returns (o: GameObject)
      modifies this`objects, this`nextObjectID
      ensures fresh(o) && o.id == id && o.mass == mass
      ensures o.Body() == Physics.Body(initialPos, Zero, One, Zero, Zero, false, false, boundingBox)
      ensures objects == old(objects) + [o] && nextObjectID == old(nextObjectID) + 1
    {
      o := new GameObject(id, initialPos, mass, boundingBox);
      objects := objects + [o];
      nextObjectID := nextObjectID + 1;
    }

    /** createPrimitive: a "cube", "plane" or "sphere" becomes a new
        selected object named after the shape and the serial counter (the
        sphere as a cube stand-in, the plane static and massless); any other
        shape creates nothing. */
    method CreatePrimitive(shape: string, initialPos: Vec3) returns (o: GameObject?)
      requires Valid()
      modifies this`objects, this`nextObjectID, this`selectedObject
      ensures Valid()
      ensures !IsPrimitive(shape) ==>
        o == null && objects == old(objects) && nextObjectID == old(nextObjectID) && selectedObject == old(selectedObject)
      ensures IsPrimitive(shape) ==>
        o != null && fresh(o) && objects == old(objects) + [o] && selectedObject == o &&
        o.id == PrimitivePrefix(shape) + "_" + Text.Decimal(old(nextObjectID)) &&
        o.mass == (if shape == "plane" then 0.0 else 1.0) &&
        o.Body() == Physics.Body(initialPos, Zero, One, Zero, Zero, shape == "plane", false, PrimitiveBox(shape))
    {
      if !IsPrimitive(shape) {
        return null;
      }
      var id := PrimitivePrefix(shape) + "_" + Text.Decimal(nextObjectID);
      var mass := if shape == "plane" then 0.0 else 1.0;
      ghost var scene := objects;
      o := CreateGameObject(id, initialPos, mass, PrimitiveBox(shape));
      AppendedSerial(scene, o, PrimitivePrefix(shape));
      if shape == "plane" {
        o.isKinematic := true;
      }
      selectedObject := o;
    }

    /** createGroundPlane: the static "GroundPlane", a unit plane at the
        ground height scaled to 100 x 1 x 100. */
    method CreateGroundPlane() returns (ground: GameObject)
      modifies this`objects, this`nextObjectID
      ensures fresh(ground) && ground.id == GroundPlaneId && ground.mass == 0.0
      ensures ground.Body() == Physics.Body(Vec3(0.0, Physics.GroundPlaneY, 0.0), Zero, Vec3(100.0, 1.0, 100.0), Zero, Zero, true, false, UnitPlane)
      ensures objects == old(objects) + [ground] && nextObjectID == old(nextObjectID) + 1
    {
      ground := CreateGameObject(GroundPlaneId, Vec3(0.0, Physics.GroundPlaneY, 0.0), 0.0, UnitPlane);
      ground.scale := Vec3(100.0, 1.0, 100.0);
      ground.isKinematic := true;
    }

    /** A spawn-menu click: a new primitive InitialHoldDistance in front of
        the camera goes straight into the hand, the menu closes and the
        cursor is grabbed again. */
    method SpawnAndGrab(shape: string)
      requires Valid() && (shape == "cube" || shape == "sphere")
      modifies this`objects, this`nextObjectID, this`selectedObject, this`heldObject, this`menu, this`view
      ensures Valid()
      ensures heldObject != null && fresh(heldObject) && objects == old(objects) + [heldObject] && selectedObject == heldObject
      ensures heldObject.id == PrimitivePrefix(shape) + "_" + Text.Decimal(old(nextObjectID))
      ensures heldObject.Body() ==
        Physics.Body(old(view.pos).Add(old(view.front).Mul(InitialHoldDistance)), Zero, One, Zero, Zero, false, false, UnitCube)
      ensures menu == old(menu).(on := false) && view == old(view).(grabbed := true)
    {
      var spawnPos := view.pos.Add(view.front.Mul(InitialHoldDistance));
      var o := CreatePrimitive(shape, spawnPos);
      heldObject := o;
      menu := menu.(on := false);
      view := view.(grabbed := true);
    }

    /** drawEGUI: the spawn menu's cube and sphere items, each a button
        that spawns and grabs its shape. */
    method DrawEGUI()
      requires Valid()
      modifies this`pointer, this`objects, this`nextObjectID, this`selectedObject, this`heldObject, this`menu, this`view
      ensures Valid()
      ensures var cube := Widgets.EngineButton(old(pointer), SpawnItemRect(width, height, 0), CubeButton);
        var sphere := Widgets.EngineButton(old(pointer).(active := cube.active), SpawnItemRect(width, height, 1), SphereButton);
        pointer == old(pointer).(active := sphere.active) &&
        (!cube.clicked && !sphere.clicked ==>
          objects == old(objects) && heldObject == old(heldObject) && menu == old(menu) && view == old(view)) &&
        (cube.clicked || sphere.clicked ==>
          heldObject != null && objects == old(objects) + [heldObject] && !menu.on && view.grabbed &&
          heldObject.id == PrimitivePrefix(if cube.clicked then "cube" else "sphere") + "_" + Text.Decimal(old(nextObjectID)))
    {
      SpawnItemsExclusive(pointer, width, height);
      var spawnCube := HandleButton(SpawnItemRect(width, height, 0), CubeButton);
      if spawnCube {
        SpawnAndGrab("cube");
      }
      var spawnSphere := HandleButton(SpawnItemRect(width, height, 1), SphereButton);
      if spawnSphere {
        SpawnAndGrab("sphere");
      }
    }

    // --- the application ---

    /** initApp: a 1280 x 720 window, the camera at (0, 2, 5) looking down
        -Z with the cursor grabbed, the menu closed, the hand empty, and a
        scene holding only the ground plane. */
    constructor (frontOf: (real, real) -> Vec3, normalize: Vec3 -> Vec3,
                 rayDirection: (Vec3, Vec3, Vec3, real, real, real) -> Vec3)
      ensures Valid()
      ensures width == ScreenWidth && height == ScreenHeight
      ensures view == View(Vec3(0.0, 2.0, 5.0), frontOf(-90.0, 0.0), Vec3(0.0, 1.0, 0.0),
        Camera.Look(-90.0, 0.0, 0.0, 0.0), true, true, false)
      ensures hand == Hand(InitialHoldDistance, false, 0.0, 0.0) && !menu.on && pointer == Widgets.Idle
      ensures heldObject == null && selectedObject == null && physicsAccumulator == 0.0
      ensures |objects| == 1 && fresh(objects[0]) && objects[0].id == GroundPlaneId
      ensures this.frontOf == frontOf && this.normalize == normalize && this.rayDirection == rayDirection
    {
      this.frontOf := frontOf;
      this.normalize := normalize;
      this.rayDirection := rayDirection;
      width := ScreenWidth;
      height := ScreenHeight;
      view := View(Vec3(0.0, 2.0, 5.0), frontOf(-90.0, 0.0), Vec3(0.0, 1.0, 0.0),
        Camera.Look(-90.0, 0.0, 0.0, 0.0), true, true, false);
      hand := Hand(InitialHoldDistance, false, 0.0, 0.0);
      pointer := Widgets.Idle;
      menu := Camera.Toggle(false, false);
      physicsAccumulator := 0.0;
      objects := [];
      selectedObject := null;
      heldObject := null;
      nextObjectID := 0;
      new;
      var ground := CreateGroundPlane();
    }

    /** The end of a frame: the released flag lasts one frame, and a
        release frame frees the active-element token after the UI pass. */
    method EndFrame()
      modifies this`pointer
      ensures pointer == Widgets.CorrectedEndFrame(old(pointer))
    {
      if pointer.released {
        pointer := pointer.(active := "");
      }
      pointer := pointer.(released := false);
    }

    /** renderScene's UI part: the tool panels, then the spawn menu when open. */
    method DrawUI()
      requires Valid()
      modifies this`pointer, this`heldObject, this`menu, this`view, this`objects, this`nextObjectID, this`selectedObject, objects
      ensures Valid()
      ensures pointer == old(pointer).(active := pointer.active)
      ensures old(objects) <= objects
    {
      DrawCustomUI();
      if menu.on {
        DrawEGUI();
      }
    }

    /** One pass of the main loop: input, engine update, the UI over the
        rendered scene, end of frame. */
    method Frame(events: seq<Event>, keys: Keys, dt: real)
      requires Valid() && dt >= 0.0
      requires forall k :: 0 <= k < |events| ==> EventOk(events[k])
      modifies this`pointer, this`view, this`hand, this`heldObject, this`width, this`height, this`menu,
        this`physicsAccumulator, this`objects, this`nextObjectID, this`selectedObject, objects
      ensures Valid()
      ensures !pointer.released
      // objects are only ever added, at the end
      ensures old(objects) <= objects
    {
      ProcessInput(events, keys, dt);
      UpdateEngine(dt);
      DrawUI();
      EndFrame();
    }
  }
}
