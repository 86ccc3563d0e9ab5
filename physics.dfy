/** The fixed-step physics of holy-engine-base: one semi-implicit Euler step
    with a ground plane (updatePhysics, per object), the fixed-timestep
    accumulator (updateEngine) and the held-object pose fix-up that follows
    the physics steps. Everything here is a pure function of a Body, the
    value of the physics fields of one GameObject. */
module Physics {
  import opened Vectors

  const Gravity: real := -9.81
  const PhysicsTimestep: real := 1.0 / 60.0
  const GroundPlaneY: real := 0.0
  /** The friction factor applied on contact with the ground. */
  const Damping: real := 0.9

  /** The fields of a GameObject that one physics step reads or writes. */
  datatype Body = Body(
    position: Vec3,
    rotation: Vec3,
    scale: Vec3,
    velocity: Vec3,
    angularVelocity: Vec3,
    isKinematic: bool,
    isGrounded: bool,
    box: Box)

  /** World height of the lowest point of the (unrotated) local box. */
  function LowestPoint(b: Body): real {
    b.position.y + b.scale.y * b.box.min.y
  }

  /** Gravity first, then position from the NEW velocity, then rotation. */
  function Integrate(b: Body, dt: real): Body {
    var v := Vec3(b.velocity.x, b.velocity.y + Gravity * dt, b.velocity.z);
    b.(velocity := v,
       position := b.position.Add(v.Mul(dt)),
       rotation := b.rotation.Add(b.angularVelocity.Mul(dt)))
  }

  /** The ground test: snap, stop, ground and damp, or mark as airborne. */
  function Collide(b: Body): Body {
    if LowestPoint(b) < GroundPlaneY then
      b.(position := b.position.With(1, GroundPlaneY - b.scale.y * b.box.min.y),
         velocity := Vec3(b.velocity.x * Damping, 0.0, b.velocity.z * Damping),
         isGrounded := true,
         angularVelocity := b.angularVelocity.Mul(Damping))
    else
      b.(isGrounded := false)
  }

  /** One physics step of one object (the body of the loop in updatePhysics). */
  function Step(b: Body, dt: real): (r: Body)
    // nothing but these four fields can change
    ensures r.scale == b.scale && r.box == b.box && r.isKinematic == b.isKinematic
    // a kinematic object is only stopped
    ensures b.isKinematic ==>
      r.velocity == Zero && r.angularVelocity == Zero &&
      r.position == b.position && r.rotation == b.rotation && r.isGrounded == b.isGrounded
    // rotation always integrates the angular velocity the step started with
    ensures !b.isKinematic ==> r.rotation == b.rotation.Add(b.angularVelocity.Mul(dt))
    // grounded exactly when the integrated lowest point is below the plane
    ensures !b.isKinematic ==>
      (r.isGrounded <==> b.position.y + (b.velocity.y + Gravity * dt) * dt + b.scale.y * b.box.min.y < GroundPlaneY)
    // on contact: resting on the plane, vertical motion stopped, the rest damped
    ensures !b.isKinematic && r.isGrounded ==>
      LowestPoint(r) == GroundPlaneY && r.velocity.y == 0.0 &&
      r.velocity.x == b.velocity.x * Damping && r.velocity.z == b.velocity.z * Damping &&
      r.angularVelocity == b.angularVelocity.Mul(Damping) &&
      r.position.x == b.position.x + b.velocity.x * dt && r.position.z == b.position.z + b.velocity.z * dt
    // in the air: semi-implicit Euler, the position moves by the updated velocity
    ensures !b.isKinematic && !r.isGrounded ==>
      r.velocity == Vec3(b.velocity.x, b.velocity.y + Gravity * dt, b.velocity.z) &&
      r.position == b.position.Add(r.velocity.Mul(dt)) &&
      r.angularVelocity == b.angularVelocity
  {
    if b.isKinematic then
      b.(velocity := Zero, angularVelocity := Zero)
    else
      Collide(Integrate(b, dt))
  }

  /** `n` consecutive steps of length `dt`. */
  function Iterate(b: Body, dt: real, n: nat): Body
    decreases n
  {
    if n == 0 then b else Iterate(Step(b, dt), dt, n - 1)
  }

  /** One more step at the end of a run is the same as one more iteration. */
  lemma {:induction false} IterateSnoc(b: Body, dt: real, n: nat)
    ensures Iterate(b, dt, n + 1) == Step(Iterate(b, dt, n), dt)
    decreases n
  {
    if n > 0 {
      IterateSnoc(Step(b, dt), dt, n - 1);
    }
  }

  function Pow(r: real, n: nat): real { if n == 0 then 1.0 else r * Pow(r, n - 1) }

  /** A kinematic body leaves any positive number of steps stopped and where it was. */
  lemma {:induction false} KinematicIterate(b: Body, dt: real, n: nat)
    requires b.isKinematic && n >= 1
    ensures var r := Iterate(b, dt, n);
      r.velocity == Zero && r.angularVelocity == Zero && r.isKinematic &&
      r.position == b.position && r.rotation == b.rotation
    decreases n
  {
    if n > 1 {
      KinematicIterate(Step(b, dt), dt, n - 1);
    }
  }

  /** A dynamic body resting exactly on the plane with no vertical velocity
      does not sink or jitter: one step keeps its height and vertical velocity. */
  lemma RestingStep(b: Body, dt: real)
    requires !b.isKinematic && dt > 0.0
    requires LowestPoint(b) == GroundPlaneY && b.velocity.y == 0.0
    ensures var r := Step(b, dt);
      !r.isKinematic && r.isGrounded && r.position.y == b.position.y && r.velocity.y == 0.0 &&
      LowestPoint(r) == GroundPlaneY &&
      r.velocity.x == b.velocity.x * Damping && r.velocity.z == b.velocity.z * Damping
  {
    var fall := Gravity * dt;
    NegTimesPos(fall, dt);
    var drop := (b.velocity.y + fall) * dt;
    assert drop == fall * dt;
    assert drop < 0.0;
    assert b.position.y + b.scale.y * b.box.min.y == 0.0;
    assert b.position.y + drop + b.scale.y * b.box.min.y < GroundPlaneY;
  }

  lemma NegTimesPos(a: real, b: real)
    requires a < 0.0 && b > 0.0
    ensures a * b < 0.0
  {}

  /** v after n dampings. */
  function Damped(v: real, n: nat): real
    decreases n
  {
    if n == 0 then v else Damped(v * Damping, n - 1)
  }

  /** n dampings scale by the n-th power of the damping factor. */
  lemma {:induction false} DampedPow(v: real, n: nat)
    ensures Damped(v, n) == v * Pow(Damping, n)
    decreases n
  {
    if n > 0 {
      DampedPow(v * Damping, n - 1);
      assert Pow(Damping, n) == Damping * Pow(Damping, n - 1);
      assert (v * Damping) * Pow(Damping, n - 1) == v * (Damping * Pow(Damping, n - 1));
    }
  }

  /** The same over any number of steps; horizontal velocity decays
      geometrically (DampedPow). */
  lemma {:induction false} RestingStays(b: Body, dt: real, n: nat)
    requires !b.isKinematic && dt > 0.0
    requires LowestPoint(b) == GroundPlaneY && b.velocity.y == 0.0
    ensures var r := Iterate(b, dt, n);
      r.position.y == b.position.y && r.velocity.y == 0.0 && LowestPoint(r) == GroundPlaneY &&
      r.velocity.x == Damped(b.velocity.x, n) && r.velocity.z == Damped(b.velocity.z, n) &&
      (n >= 1 ==> r.isGrounded)
    decreases n
  {
    if n > 0 {
      RestingStep(b, dt);
      RestingStays(Step(b, dt), dt, n - 1);
    }
  }

  /** The accumulator loop of updateEngine on an accumulator value `acc`:
      how many fixed steps run, and what is left over. */
  function Drain(acc: real): (r: (nat, real))
    requires acc >= 0.0
    ensures 0.0 <= r.1 < PhysicsTimestep
    ensures r.1 == acc - (r.0 as real) * PhysicsTimestep
    ensures r.0 == (acc * 60.0).Floor
    decreases (acc * 60.0).Floor
  {
    if acc >= PhysicsTimestep then
      var (n, rest) := Drain(acc - PhysicsTimestep);
      (n + 1, rest)
    else
      (0, acc)
  }

  /** What updateEngine does to the held object after the physics steps:
      hard-set position, force kinematic, integrate rotation while rotating. */
  function HoldPose(b: Body, target: Vec3, rotating: bool, dt: real): (r: Body)
    ensures r.position == target && r.isKinematic
    ensures r.velocity == b.velocity && r.angularVelocity == b.angularVelocity
    ensures r.rotation == if rotating then b.rotation.Add(b.angularVelocity.Mul(dt)) else b.rotation
  {
    var held := b.(position := target, isKinematic := true);
    if rotating then held.(rotation := held.rotation.Add(held.angularVelocity.Mul(dt))) else held
  }

  /** The angular velocity the cursor callback gives a held (kinematic) object
      is zeroed by every physics step, so on a frame that runs at least one
      step the rotation integrated after the steps does not move it. */
  lemma HeldRotationFrozen(b: Body, n: nat, target: Vec3, dt: real)
    requires b.isKinematic && n >= 1
    ensures HoldPose(Iterate(b, PhysicsTimestep, n), target, true, dt).rotation == b.rotation
  {
    KinematicIterate(b, PhysicsTimestep, n);
  }
}
