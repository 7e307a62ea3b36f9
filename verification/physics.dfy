/** The small physics world: spheres under gravity with a bouncing ground
    plane at y = 0, stepped with the velocity updated before the position. */
module Physics {
  import opened Optional
  import opened Geometry

  datatype Body = Body(position: Vec3, velocity: Vec3, mass: real, radius: real, restitution: real, isStatic: bool)

  datatype World = World(gravity: Vec3, bodies: seq<Body>)

  /** The constructor's options; a missing one takes its default. */
  datatype BodyOptions = BodyOptions(
    position: Option<Vec3>,
    velocity: Option<Vec3>,
    mass: Option<real>,
    radius: Option<real>,
    restitution: Option<real>,
    isStatic: Option<bool>)

  /** `new PhysicsBody(options)`. The module never imports `THREE`, so the
      defaults `new THREE.Vector3()` for a missing position or velocity
      throw a ReferenceError (None here). Otherwise the vectors given are
      stored (bodies are values, as the constructor's copies make them),
      and mass 1, radius 1, restitution 0.5 and moving are the defaults
      for the rest. */
  function NewBody(o: BodyOptions): (r: Option<Body>)
    ensures r.None? <==> o.position.None? || o.velocity.None?
    ensures r.Some? ==> r.value.position == o.position.value && r.value.velocity == o.velocity.value
    ensures r.Some? && o.mass.None? ==> r.value.mass == 1.0
    ensures r.Some? && o.radius.None? ==> r.value.radius == 1.0
    ensures r.Some? && o.restitution.None? ==> r.value.restitution == 0.5
    ensures r.Some? && o.isStatic.None? ==> !r.value.isStatic
    ensures r.Some? && o.mass.Some? ==> r.value.mass == o.mass.value
    ensures r.Some? && o.radius.Some? ==> r.value.radius == o.radius.value
    ensures r.Some? && o.restitution.Some? ==> r.value.restitution == o.restitution.value
    ensures r.Some? && o.isStatic.Some? ==> r.value.isStatic == o.isStatic.value
  {
    match (o.position, o.velocity)
    case (Some(position), Some(velocity)) =>
      Some(Body(position, velocity, o.mass.GetOr(1.0), o.radius.GetOr(1.0), o.restitution.GetOr(0.5), o.isStatic.GetOr(false)))
    case _ => None
  }

  /** `new PhysicsWorld(gravity)`: no bodies and the gravity given; without
      one, the default `new THREE.Vector3(0, -9.81, 0)` throws a
      ReferenceError for the same missing import (None here). */
  function NewWorld(gravity: Option<Vec3>): (r: Option<World>)
    ensures r.None? <==> gravity.None?
    ensures r.Some? ==> r.value.bodies == [] && r.value.gravity == gravity.value
  {
    match gravity
    case None => None
    case Some(g) => Some(World(g, []))
  }

  /** The options that name every field of `b`. */
  function OptionsOf(b: Body): BodyOptions {
    BodyOptions(Some(b.position), Some(b.velocity), Some(b.mass), Some(b.radius), Some(b.restitution), Some(b.isStatic))
  }

  /** Every body can be constructed: naming all its fields gives it back. */
  lemma NewBodyFromOwnFields(b: Body)
    ensures NewBody(OptionsOf(b)) == Some(b)
  {
  }

  /** `addBody` called for each body in turn. */
  function AddAll(w: World, bodies: seq<Body>): World
    decreases |bodies|
  {
    if |bodies| == 0 then w else AddAll(AddBody(w, bodies[0]), bodies[1..])
  }

  /** Adding bodies one by one appends them, in order, after those already there. */
  lemma {:induction false} AddAllAppends(w: World, bodies: seq<Body>)
    ensures AddAll(w, bodies) == World(w.gravity, w.bodies + bodies)
    decreases |bodies|
  {
    if |bodies| > 0 {
      AddAllAppends(AddBody(w, bodies[0]), bodies[1..]);
      assert w.bodies + [bodies[0]] + bodies[1..] == w.bodies + bodies;
    }
  }

  /** Every world can be built: a world made with its gravity, with its
      bodies then added in order, is that world. */
  lemma NewWorldThenAddAll(w: World)
    ensures NewWorld(Some(w.gravity)).Some?
    ensures AddAll(NewWorld(Some(w.gravity)).value, w.bodies) == w
  {
    AddAllAppends(World(w.gravity, []), w.bodies);
    assert [] + w.bodies == w.bodies;
  }

  /** `addBody`: the body goes last; the others keep their places. */
  function AddBody(w: World, b: Body): (r: World)
    ensures r.gravity == w.gravity
    ensures |r.bodies| == |w.bodies| + 1 && r.bodies[..|w.bodies|] == w.bodies && r.bodies[|w.bodies|] == b
  {
    w.(bodies := w.bodies + [b])
  }

  /** One body's step. A static body is left alone. Otherwise the
      velocity gains gravity times dt first, and the new velocity then
      moves the position; a body whose bottom ends below the ground is put
      on it and its vertical velocity is reversed and scaled by the
      restitution, the horizontal velocity untouched. */
  function StepBody(g: Vec3, dt: real, b: Body): (r: Body)
    ensures b.isStatic ==> r == b
    ensures r.mass == b.mass && r.radius == b.radius && r.restitution == b.restitution && r.isStatic == b.isStatic
    ensures !b.isStatic ==> r.position.y >= r.radius
    ensures !b.isStatic ==>
      && r.velocity.x == b.velocity.x + g.x * dt && r.velocity.z == b.velocity.z + g.z * dt
      && r.position.x == b.position.x + r.velocity.x * dt && r.position.z == b.position.z + r.velocity.z * dt
    ensures !b.isStatic && b.position.y + (b.velocity.y + g.y * dt) * dt >= b.radius ==>
      r.velocity.y == b.velocity.y + g.y * dt && r.position.y == b.position.y + r.velocity.y * dt
    ensures !b.isStatic && b.position.y + (b.velocity.y + g.y * dt) * dt < b.radius ==>
      r.position.y == b.radius && r.velocity.y == -(b.restitution * (b.velocity.y + g.y * dt))
  {
    if b.isStatic then b
    else
      var v := Add(b.velocity, Scale(g, dt));
      var p := Add(b.position, Scale(v, dt));
      if p.y - b.radius < 0.0 then
        b.(position := WithY(p, b.radius), velocity := WithY(v, -(v.y * b.restitution)))
      else
        b.(position := p, velocity := v)
  }

  /** `step`: every body is stepped in order; static bodies come out as
      they went in and every moving body ends with its bottom on or above
      the ground. */
  method Step(w: World, dt: real) returns (r: World)
    ensures r.gravity == w.gravity && |r.bodies| == |w.bodies|
    ensures forall i :: 0 <= i < |w.bodies| && w.bodies[i].isStatic ==> r.bodies[i] == w.bodies[i]
    ensures forall i :: 0 <= i < |w.bodies| && !w.bodies[i].isStatic ==> r.bodies[i].position.y >= r.bodies[i].radius
    ensures forall i :: 0 <= i < |w.bodies| ==> r.bodies[i] == StepBody(w.gravity, dt, w.bodies[i])
  {
    var stepped: seq<Body> := [];
    var i := 0;
    while i < |w.bodies|
      invariant 0 <= i <= |w.bodies| && |stepped| == i
      invariant forall j :: 0 <= j < i ==> stepped[j] == StepBody(w.gravity, dt, w.bodies[j])
    {
      var b := w.bodies[i];
      if !b.isStatic {
        b := StepBody(w.gravity, dt, b);
      }
      stepped := stepped + [b];
      i := i + 1;
    }
    r := World(w.gravity, stepped);
  }

  /** A moving body resting on the ground never settles: under downward
      gravity each step puts it back on the ground with a velocity of
      restitution times the speed one step of gravity gives, upward when
      the time step and the restitution are positive. */
  lemma RestingBodyBounces(g: Vec3, dt: real, b: Body)
    requires !b.isStatic && b.position.y == b.radius && b.velocity == Origin
    requires g.y < 0.0 && dt != 0.0
    ensures StepBody(g, dt, b).position.y == b.radius
    ensures StepBody(g, dt, b).velocity.y == -(b.restitution * g.y * dt)
    ensures dt > 0.0 && b.restitution > 0.0 ==> StepBody(g, dt, b).velocity.y > 0.0
  {
    assert (g.y * dt) * dt < 0.0 by {
      assert dt * dt > 0.0;
      assert (g.y * dt) * dt == g.y * (dt * dt);
    }
    if dt > 0.0 && b.restitution > 0.0 {
      assert g.y * dt < 0.0;
      assert b.restitution * (g.y * dt) < 0.0;
    }
  }

  /** Above the ground, a step is semi-implicit Euler: the position moves
      by the new velocity times dt, which for a body starting at rest is
      g dt squared, not half of it. */
  lemma FreeStepFromRest(g: Vec3, dt: real, b: Body)
    requires !b.isStatic && b.velocity == Origin
    requires b.position.y + (g.y * dt) * dt >= b.radius
    ensures StepBody(g, dt, b).position == Add(b.position, Scale(g, dt * dt))
  {
    assert (0.0 + g.y * dt) * dt == g.y * (dt * dt);
    assert (0.0 + g.x * dt) * dt == g.x * (dt * dt);
    assert (0.0 + g.z * dt) * dt == g.z * (dt * dt);
  }
}
