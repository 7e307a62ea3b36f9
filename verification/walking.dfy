/** The gravity-driven walking tick that level 1 and level 2 share:
    horizontal move with a wall test against the first box hit, gravity,
    vertical resolution against the first box hit, the floor clamp and the
    edge-locked jump, in that order.

    The two levels differ in one constant. Level 1 measures the player's
    feet half a unit below its centre, lands it half a unit above a box top
    and clamps it to the floor at 0.5; level 2 uses the position itself for
    all three (feet offset 0, landing on the box top, floor at 0). */
module Walking {
  import opened Geometry
  import opened Optional

  const Speed: real := 0.15
  const Gravity: real := -0.03
  const JumpStrength: real := 0.45
  /** How far above the feet a box top must be to count as a wall. */
  const WallMargin: real := 0.1

  datatype Variant = Variant(halfHeight: real)

  const Level1Variant: Variant := Variant(0.5)
  const Level2Variant: Variant := Variant(0.0)

  /** What a walking tick reads and writes besides the keys. */
  datatype Walker = Walker(pos: Vec3, velY: real, spaceLocked: bool)

  datatype Outcome = Outcome(pos: Vec3, velY: real, onGround: bool, spaceLocked: bool)

  /** A box the actor runs into sideways: its top is more than the margin
      above the actor's feet. A lower top is walked over. */
  predicate IsWall(v: Variant, y: real, box: Box) {
    y - v.halfHeight < box.max.y - WallMargin
  }

  /** Move sideways, then look only at the first box the moved actor
      intersects: if it is a wall the move is undone, otherwise (or with no
      hit at all) it stands. The height never changes here. */
  function HorizontalStep(v: Variant, ext: Extent, boxes: seq<Box>, pos: Vec3, dir: Vec3): (p: Vec3)
    ensures p.y == pos.y
    ensures (exists i :: IsFirstHit(boxes, BoxAt(ext, MoveFlat(pos, dir, Speed)), i) && IsWall(v, pos.y, boxes[i]))
            ==> p == pos
    ensures !(exists i :: IsFirstHit(boxes, BoxAt(ext, MoveFlat(pos, dir, Speed)), i) && IsWall(v, pos.y, boxes[i]))
            ==> p == MoveFlat(pos, dir, Speed)
  {
    var moved := MoveFlat(pos, dir, Speed);
    match FirstHit(boxes, BoxAt(ext, moved))
    case None => moved
    case Some(i) =>
      FirstHitIsUnique(boxes, BoxAt(ext, moved));
      if IsWall(v, moved.y, boxes[i]) then Vec3(pos.x, moved.y, pos.z) else moved
  }

  /** Gravity first changes the velocity, then the new velocity moves the
      actor (`velocityY += gravity; position.y += velocityY`). */
  function GravityStep(y: real, velY: real): (r: (real, real))
    ensures r.0 - y == r.1
    ensures r.1 - velY == Gravity
  {
    var vel := velY + Gravity;
    (y + vel, vel)
  }

  /** Where `n` ticks of free fall take an actor (no box, no floor). */
  function FreeFall(n: nat, y: real, velY: real): (real, real)
    decreases n
  {
    if n == 0 then (y, velY)
    else
      var s := GravityStep(y, velY);
      FreeFall(n - 1, s.0, s.1)
  }

  /** Free fall in closed form. Because the velocity is updated before it
      is applied, the drop after n ticks is g * n(n+1)/2, not g * n(n-1)/2. */
  lemma {:induction false} FreeFallClosedForm(n: nat, y: real, velY: real)
    ensures FreeFall(n, y, velY).1 == velY + (n as real) * Gravity
    ensures FreeFall(n, y, velY).0 == y + (n as real) * velY + Gravity * ((n * (n + 1)) as real) / 2.0
  {
    if n > 0 {
      var s := GravityStep(y, velY);
      FreeFallClosedForm(n - 1, s.0, s.1);
      assert ((n * (n + 1)) as real) == ((n - 1) * n) as real + 2.0 * (n as real);
    }
  }

  datatype Vertical = Vertical(pos: Vec3, velY: real, onGround: bool)

  /** Gravity, then vertical resolution against the first box the fallen
      actor intersects: falling or resting lands it on that box's top and
      grounds it, rising puts it back at the height it had before the tick;
      both stop it. Without a hit it simply falls. */
  function VerticalStep(v: Variant, ext: Extent, boxes: seq<Box>, pos: Vec3, prevY: real, velY: real): (r: Vertical)
    ensures r.pos.x == pos.x && r.pos.z == pos.z
    ensures var fallen := WithY(pos, GravityStep(pos.y, velY).0);
            !HitsSome(boxes, BoxAt(ext, fallen)) ==> r == Vertical(fallen, velY + Gravity, false)
    ensures var fallen := WithY(pos, GravityStep(pos.y, velY).0);
            forall i :: IsFirstHit(boxes, BoxAt(ext, fallen), i) ==>
              if velY + Gravity <= 0.0 then r == Vertical(WithY(pos, boxes[i].max.y + v.halfHeight), 0.0, true)
              else r == Vertical(WithY(pos, prevY), 0.0, false)
  {
    var (y, vel) := GravityStep(pos.y, velY);
    var fallen := WithY(pos, y);
    match FirstHit(boxes, BoxAt(ext, fallen))
    case None => Vertical(fallen, vel, false)
    case Some(i) =>
      FirstHitIsUnique(boxes, BoxAt(ext, fallen));
      if vel <= 0.0 then Vertical(WithY(pos, boxes[i].max.y + v.halfHeight), 0.0, true)
      else Vertical(WithY(pos, prevY), 0.0, false)
  }

  /** The floor under everything: at or below it the actor is put on it,
      stopped and grounded; above it nothing changes. */
  function FloorClamp(v: Variant, s: Vertical): (r: Vertical)
    ensures r.pos.y >= v.halfHeight
    ensures r.pos.x == s.pos.x && r.pos.z == s.pos.z
    ensures s.pos.y <= v.halfHeight ==> r.pos.y == v.halfHeight && r.velY == 0.0 && r.onGround
    ensures s.pos.y > v.halfHeight ==> r == s
  {
    if s.pos.y <= v.halfHeight then Vertical(WithY(s.pos, v.halfHeight), 0.0, true) else s
  }

  /** One walking tick: the horizontal step, the vertical step from the
      pre-tick height and the floor clamp decide where the actor ends and
      whether it is grounded. Whatever happens it ends at or above the
      floor; a jump happens exactly when it ends grounded with Space held
      and unlocked, and the lock is set by that jump and by nothing else,
      so holding Space gives one jump until it is released. */
  function Tick(v: Variant, ext: Extent, boxes: seq<Box>, w: Walker, dir: Vec3, spaceHeld: bool): (r: Outcome)
    ensures r.pos.y >= v.halfHeight
    ensures r.pos.x == HorizontalStep(v, ext, boxes, w.pos, dir).x
    ensures r.pos.z == HorizontalStep(v, ext, boxes, w.pos, dir).z
    ensures r.spaceLocked <==> w.spaceLocked || (r.onGround && spaceHeld)
    ensures r.onGround && spaceHeld && !w.spaceLocked ==> r.velY == JumpStrength
    ensures r.onGround && !(spaceHeld && !w.spaceLocked) ==> r.velY == 0.0
    ensures var s := FloorClamp(v, VerticalStep(v, ext, boxes, HorizontalStep(v, ext, boxes, w.pos, dir), w.pos.y, w.velY));
            && r.pos == s.pos && r.onGround == s.onGround
            && (!(s.onGround && spaceHeld && !w.spaceLocked) ==> r.velY == s.velY)
  {
    var h := HorizontalStep(v, ext, boxes, w.pos, dir);
    var s := FloorClamp(v, VerticalStep(v, ext, boxes, h, w.pos.y, w.velY));
    if s.onGround && spaceHeld && !w.spaceLocked then
      Outcome(s.pos, JumpStrength, true, true)
    else
      Outcome(s.pos, s.velY, s.onGround, w.spaceLocked)
  }

  /** At rest on the floor with no box touching the actor there or just
      below, and no jump, a tick changes nothing: no jitter at rest. */
  lemma RestOnFloorIsStable(v: Variant, ext: Extent, boxes: seq<Box>, w: Walker, spaceHeld: bool)
    requires w.pos.y == v.halfHeight && w.velY == 0.0
    requires !HitsSome(boxes, BoxAt(ext, WithY(w.pos, v.halfHeight + Gravity)))
    requires !(spaceHeld && !w.spaceLocked)
    ensures Tick(v, ext, boxes, w, Origin, spaceHeld) == Outcome(w.pos, 0.0, true, w.spaceLocked)
  {
    assert MoveFlat(w.pos, Origin, Speed) == w.pos;
  }

  /** Standing on top of a box (the first one the settling actor meets),
      with no jump, a tick changes nothing either. */
  lemma RestOnBoxIsStable(v: Variant, ext: Extent, boxes: seq<Box>, w: Walker, spaceHeld: bool, i: nat)
    requires w.velY == 0.0
    requires IsFirstHit(boxes, BoxAt(ext, WithY(w.pos, w.pos.y + Gravity)), i)
    requires w.pos.y == boxes[i].max.y + v.halfHeight && w.pos.y > v.halfHeight
    requires !(spaceHeld && !w.spaceLocked)
    ensures Tick(v, ext, boxes, w, Origin, spaceHeld) == Outcome(w.pos, 0.0, true, w.spaceLocked)
  {
    assert MoveFlat(w.pos, Origin, Speed) == w.pos;
  }

  /** With Space held the whole time, a tick that starts locked never
      jumps and stays locked: one impulse per press. */
  lemma HeldSpaceDoesNotRepeat(v: Variant, ext: Extent, boxes: seq<Box>, w: Walker, dir: Vec3)
    requires w.spaceLocked
    ensures Tick(v, ext, boxes, w, dir, true).spaceLocked
    ensures Tick(v, ext, boxes, w, dir, true).onGround ==> Tick(v, ext, boxes, w, dir, true).velY == 0.0
  {
  }
}
