/** The gravity-free mode level 1 calls flying and level 2 calls driving:
    a timed ascent after the mode is switched on, direct horizontal and
    vertical moves, and a hard revert of the whole tick's move on any
    collision. */
module Flying {
  import opened Geometry

  const FlySpeed: real := 0.25
  const AscentRate: real := 0.2
  /** How far above the current height the ascent aims when the mode is switched on. */
  const Lift: real := 10.0

  /** The mode flag and the ascent that follows switching it on. */
  datatype Flight = Flight(on: bool, ascending: bool, target: real)

  /** `toggleFlying` / `toggleDriving` (the velocity reset is the caller's):
      switching on starts an ascent to ten units above the current height;
      switching off leaves the ascent bookkeeping as it was. */
  function Toggle(f: Flight, y: real): (r: Flight)
    ensures r.on == !f.on
    ensures r.on ==> r.ascending && r.target == y + Lift
    ensures !r.on ==> r.ascending == f.ascending && r.target == f.target
  {
    if !f.on then Flight(true, true, y + Lift) else Flight(false, f.ascending, f.target)
  }

  /** One tick of the ascent: below the target climb by the ascent rate;
      otherwise snap to the target and finish. */
  function Ascend(y: real, f: Flight): (r: (real, Flight))
    ensures r.1.on == f.on && r.1.target == f.target
    ensures f.ascending && y < f.target ==> r == (y + AscentRate, f)
    ensures f.ascending && y >= f.target ==> r == (f.target, f.(ascending := false))
    ensures !f.ascending ==> r == (y, f)
  {
    if f.ascending then
      if y < f.target then (y + AscentRate, f) else (f.target, f.(ascending := false))
    else (y, f)
  }

  /** Where the ascent alone takes the actor in `n` ticks. */
  function AscendN(n: nat, y: real, f: Flight): (real, Flight)
    decreases n
  {
    if n == 0 then (y, f)
    else
      var s := Ascend(y, f);
      AscendN(n - 1, s.0, s.1)
  }

  /** Ticks an ascent needs: one per climb step while below the target,
      plus the tick that snaps to it. */
  function TicksToTarget(y: real, target: real): nat
    decreases if y < target then ((target - y) / AscentRate).Floor + 1 else 0
  {
    if y < target then
      ClimbShrinksGap(y, target);
      1 + TicksToTarget(y + AscentRate, target)
    else 1
  }

  lemma ClimbShrinksGap(y: real, target: real)
    requires y < target
    ensures ((target - y) / AscentRate).Floor >= 0
    ensures ((target - (y + AscentRate)) / AscentRate).Floor == ((target - y) / AscentRate).Floor - 1
  {
    var q := (target - y) / AscentRate;
    assert (target - (y + AscentRate)) / AscentRate == q - 1.0;
  }

  /** Left to itself an ascent ends, after TicksToTarget ticks, exactly at
      its target with the ascent flag cleared. */
  lemma {:induction false} AscentCompletes(y: real, f: Flight)
    requires f.ascending
    ensures AscendN(TicksToTarget(y, f.target), y, f) == (f.target, f.(ascending := false))
    decreases if y < f.target then ((f.target - y) / AscentRate).Floor + 1 else 0
  {
    if y < f.target {
      ClimbShrinksGap(y, f.target);
      AscentCompletes(y + AscentRate, f);
    }
  }

  datatype FlyStep = FlyStep(pos: Vec3, flight: Flight)

  /** Where the tick would take the actor before the collision test:
      ascent, horizontal move, then Space up and C/Control down. */
  function Planned(pos: Vec3, f: Flight, dir: Vec3, up: bool, down: bool): Vec3 {
    var (y, _) := Ascend(pos.y, f);
    var moved := MoveFlat(WithY(pos, y), dir, FlySpeed);
    var y1 := if up then moved.y + FlySpeed else moved.y;
    var y2 := if down then y1 - FlySpeed else y1;
    WithY(moved, y2)
  }

  /** One flying tick. The planned position is kept only if it intersects
      no box; otherwise the whole pre-tick position comes back (ascent
      included). So a tick never moves the actor into a box, and an actor
      that starts clear of every box stays clear. */
  function Tick(ext: Extent, boxes: seq<Box>, pos: Vec3, f: Flight, dir: Vec3, up: bool, down: bool): (r: FlyStep)
    ensures r.pos == pos || !HitsSome(boxes, BoxAt(ext, r.pos))
    ensures HitsSome(boxes, BoxAt(ext, Planned(pos, f, dir, up, down))) ==> r.pos == pos
    ensures !HitsSome(boxes, BoxAt(ext, Planned(pos, f, dir, up, down))) ==> r.pos == Planned(pos, f, dir, up, down)
    ensures r.flight == Ascend(pos.y, f).1
    ensures !HitsSome(boxes, BoxAt(ext, Planned(pos, f, dir, up, down))) && dir.x == 0.0 && dir.z == 0.0 && up == down
            ==> r.pos == WithY(pos, Ascend(pos.y, f).0)
  {
    var planned := Planned(pos, f, dir, up, down);
    var flight := Ascend(pos.y, f).1;
    if FirstHit(boxes, BoxAt(ext, planned)).Some? then FlyStep(pos, flight) else FlyStep(planned, flight)
  }

  /** Collision-freedom is an invariant of flying. */
  lemma TickKeepsClear(ext: Extent, boxes: seq<Box>, pos: Vec3, f: Flight, dir: Vec3, up: bool, down: bool)
    requires !HitsSome(boxes, BoxAt(ext, pos))
    ensures !HitsSome(boxes, BoxAt(ext, Tick(ext, boxes, pos, f, dir, up, down).pos))
  {
  }
}
