/** The main hub: a unit-cube player walking on the floor among arcade
    machines. Unlike the levels' walking tick, any arcade box the moved
    player touches undoes the horizontal move, there is no landing on
    boxes, and the only floor is y = 0.5. */
module Hub {
  import opened Optional
  import opened Geometry
  import opened Controls
  import Walking

  datatype Level = MainHub | Level1 | Level2 | Level3

  /** `player` is None until the hub scene holds a player object;
      `arcadeBoxes` is None until the arcade machines have been placed. */
  datatype State = State(
    level: Level,
    player: Option<Vec3>,
    arcadeBoxes: Option<seq<Box>>,
    velY: real,
    keys: Keys,
    spaceHeld: bool,
    spaceLocked: bool,
    look: Look)

  /** Escape only asks for the pause menu to open or close. */
  datatype KeyResult = KeyResult(state: State, togglePause: bool)

  /** `handleKeyDown` of the hub. */
  function OnKeyDown(s: State, e: KeyEvent): (r: KeyResult)
    ensures r.togglePause <==> e.code == "Escape"
    ensures e.code == "Escape" ==> r.state == s
    ensures e.code == "Space" ==> r.state == s.(spaceHeld := true)
    ensures e.code != "Escape" && e.code != "Space" ==> r.state == s.(keys := s.keys[e.key := true])
    ensures r.state.spaceLocked == s.spaceLocked
  {
    if e.code == "Escape" then KeyResult(s, true)
    else if e.code == "Space" then KeyResult(s.(spaceHeld := true), false)
    else KeyResult(s.(keys := s.keys[e.key := true]), false)
  }

  /** `handleKeyUp` of the hub: only releasing Space re-arms the jump. */
  function OnKeyUp(s: State, e: KeyEvent): (r: State)
    ensures r.spaceLocked != s.spaceLocked ==> e.code == "Space"
    ensures e.code == "Space" ==> r == s.(spaceHeld := false, spaceLocked := false)
    ensures e.code != "Space" ==> r == s.(keys := s.keys[e.key := false]) && !Held(r.keys, e.key)
  {
    if e.code == "Space" then s.(spaceHeld := false, spaceLocked := false)
    else s.(keys := s.keys[e.key := false])
  }

  function OnMouseMove(s: State, dx: real, dy: real): (r: State)
    ensures PitchInRange(r.look)
    ensures r == s.(look := r.look)
  {
    s.(look := MouseLook(s.look, dx, dy))
  }

  const Floor: real := 0.5

  /** The horizontal part of the hub tick: the move stands unless the moved
      cube touches some arcade box, in which case x and z come back. */
  function Slide(boxes: Option<seq<Box>>, pos: Vec3, dir: Vec3): (p: Vec3)
    ensures p.y == pos.y
    ensures boxes.Some? && HitsSome(boxes.value, BoxAt(UnitExtent, MoveFlat(pos, dir, Walking.Speed))) ==> p == pos
    ensures (boxes.None? || !HitsSome(boxes.value, BoxAt(UnitExtent, MoveFlat(pos, dir, Walking.Speed))))
            ==> p == MoveFlat(pos, dir, Walking.Speed)
  {
    var moved := MoveFlat(pos, dir, Walking.Speed);
    match boxes
    case None => moved
    case Some(bs) => if FirstHit(bs, BoxAt(UnitExtent, moved)).Some? then pos else moved
  }

  datatype Step = Step(pos: Vec3, velY: real, spaceLocked: bool)

  /** A player, if there is one, stands on or above the floor. */
  predicate AboveFloor(player: Option<Vec3>) {
    player.Some? ==> player.value.y >= Floor
  }

  /** Gravity takes the player to the floor or below this tick. */
  predicate Lands(y: real, velY: real) {
    y + velY + Walking.Gravity <= Floor
  }

  /** There is a player and it reaches the floor this tick. */
  predicate PlayerLands(player: Option<Vec3>, velY: real) {
    player.Some? && Lands(player.value.y, velY)
  }

  /** The hub's walking tick for a player at `pos` moving along `dir`:
      slide, gravity, and at or below the floor snap to it, stop, and jump
      if Space is held and unlocked. */
  function Tick(boxes: Option<seq<Box>>, pos: Vec3, velY: real, dir: Vec3, spaceHeld: bool, spaceLocked: bool): (r: Step)
    ensures r.pos.y >= Floor
    ensures r.pos.x == Slide(boxes, pos, dir).x && r.pos.z == Slide(boxes, pos, dir).z
    ensures !Lands(pos.y, velY) ==>
      r == Step(WithY(Slide(boxes, pos, dir), pos.y + velY + Walking.Gravity), velY + Walking.Gravity, spaceLocked)
    ensures Lands(pos.y, velY) ==> r.pos.y == Floor
    ensures r.spaceLocked <==> spaceLocked || (spaceHeld && Lands(pos.y, velY))
    ensures r.spaceLocked && !spaceLocked ==> r.velY == Walking.JumpStrength
    ensures Lands(pos.y, velY) && !(spaceHeld && !spaceLocked) ==> r.velY == 0.0
  {
    var slid := Slide(boxes, pos, dir);
    var vel := velY + Walking.Gravity;
    var y := slid.y + vel;
    if y <= Floor then
      if spaceHeld && !spaceLocked then Step(WithY(slid, Floor), Walking.JumpStrength, true)
      else Step(WithY(slid, Floor), 0.0, spaceLocked)
    else Step(WithY(slid, y), vel, spaceLocked)
  }

  /** `updatePlayer` of the hub: outside the hub, or with no player yet,
      nothing happens; otherwise one Tick along the key direction `dir`. */
  function Advance(s: State, dir: Vec3): (r: State)
    ensures s.level != MainHub || s.player.None? ==> r == s
    ensures r.player.Some? <==> s.player.Some?
    ensures r.keys == s.keys && r.look == s.look && r.level == s.level && r.arcadeBoxes == s.arcadeBoxes
    ensures s.level == MainHub ==> AboveFloor(r.player)
    ensures s.level == MainHub ==>
      (r.spaceLocked <==> s.spaceLocked || (s.spaceHeld && PlayerLands(s.player, s.velY)))
    ensures s.level == MainHub && s.player.Some? ==>
      var t := Tick(s.arcadeBoxes, s.player.value, s.velY, dir, s.spaceHeld, s.spaceLocked);
      r == s.(player := Some(t.pos), velY := t.velY, spaceLocked := t.spaceLocked)
  {
    if s.level != MainHub || s.player.None? then s
    else
      var t := Tick(s.arcadeBoxes, s.player.value, s.velY, dir, s.spaceHeld, s.spaceLocked);
      s.(player := Some(t.pos), velY := t.velY, spaceLocked := t.spaceLocked)
  }

  /** The hub tick with the key direction worked out from the facing `h`
      and the raw direction's length `len`, as in the levels. */
  function UpdatePlayer(s: State, h: Heading, len: real): (r: State)
    ensures s.level != MainHub || s.player.None? ==> r == s
    ensures r.player.Some? <==> s.player.Some?
    ensures r.keys == s.keys && r.look == s.look && r.level == s.level && r.arcadeBoxes == s.arcadeBoxes
    ensures s.level == MainHub ==> AboveFloor(r.player)
    ensures s.level == MainHub ==>
      (r.spaceLocked <==> s.spaceLocked || (s.spaceHeld && PlayerLands(s.player, s.velY)))
    ensures s.level == MainHub && s.player.Some? ==>
      var t := Tick(s.arcadeBoxes, s.player.value, s.velY, MoveDirection(h, IntentOf(s.keys), len), s.spaceHeld, s.spaceLocked);
      r == s.(player := Some(t.pos), velY := t.velY, spaceLocked := t.spaceLocked)
  {
    Advance(s, MoveDirection(h, IntentOf(s.keys), len))
  }

  /** Standing on the floor with no movement and no jump, a hub tick
      changes nothing, whatever arcade boxes stand around. */
  lemma RestIsStable(boxes: Option<seq<Box>>, pos: Vec3, spaceHeld: bool, spaceLocked: bool)
    requires pos.y == Floor
    requires !(spaceHeld && !spaceLocked)
    ensures Tick(boxes, pos, 0.0, Origin, spaceHeld, spaceLocked) == Step(pos, 0.0, spaceLocked)
  {
    assert MoveFlat(pos, Origin, Walking.Speed) == pos;
  }

  /** A player that starts clear of every arcade box stays clear: the
      slide either keeps the old x/z or moves to a position whose cube
      touches no box, and the height never enters the arcade test. */
  lemma SlideKeepsClear(boxes: seq<Box>, pos: Vec3, dir: Vec3)
    requires !HitsSome(boxes, BoxAt(UnitExtent, pos))
    ensures !HitsSome(boxes, BoxAt(UnitExtent, Slide(Some(boxes), pos, dir)))
  {
  }
}
