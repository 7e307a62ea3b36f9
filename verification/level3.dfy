/** Level 3, the building: a registry of collision boxes rebuilt every
    frame from the walls, floors and movable boxes (each shrunk by a small
    tolerance), a walking player whose horizontal move tries the full step,
    then a step up, then each axis alone, a box dragged in front of the
    player, and bullets that fly a fixed distance. Ground heights come from
    a downward ray cast and are inputs here. */
module Level3 {
  import opened Geometry
  import opened Controls
  import Walking

  /** Each face of a registered box sits this far inside its mesh's box. */
  const Tolerance: real := 0.05
  /** Side of the cube `checkCollision` tests around a position. */
  const ProbeSide: real := 0.9
  const StepUp: real := 0.5
  /** How close to the ground height counts as standing on it. */
  const GroundSnap: real := 0.1
  /** The lowest height a free vertical move may leave the player at. */
  const MinHeight: real := 0.5

  // ---------------------------------------------------------------------
  // The collision registry
  // ---------------------------------------------------------------------

  /** `addCollisionBox`: the mesh's box shrunk on every face is appended. */
  function AddCollisionBox(registry: seq<Box>, mesh: Box): (r: seq<Box>)
    ensures |r| == |registry| + 1 && r[..|registry|] == registry
    ensures r[|registry|].min == Add(mesh.min, Vec3(Tolerance, Tolerance, Tolerance))
    ensures r[|registry|].max == Sub(mesh.max, Vec3(Tolerance, Tolerance, Tolerance))
  {
    registry + [Shrink(mesh, Tolerance)]
  }

  /** The registry built by adding the given mesh boxes in order, as the
      frame's rebuild does (which meshes are walls or floors is decided
      before this). */
  function Rebuild(meshes: seq<Box>): (r: seq<Box>)
    ensures |r| == |meshes|
    ensures forall i :: 0 <= i < |meshes| ==> r[i] == Shrink(meshes[i], Tolerance)
  {
    if |meshes| == 0 then []
    else AddCollisionBox(Rebuild(meshes[..|meshes| - 1]), meshes[|meshes| - 1])
  }

  /** The cube `checkCollision` tests around a position. */
  function Probe(p: Vec3): Box {
    Cube(p, ProbeSide)
  }

  /** A position is blocked when its probe intersects a registered box. */
  predicate Blocked(registry: seq<Box>, p: Vec3) {
    HitsSome(registry, Probe(p))
  }

  /** `checkCollision`: scan the registry and stop at the first box the
      0.9-unit cube around `p` intersects. */
  method CheckCollision(registry: seq<Box>, p: Vec3) returns (hit: bool)
    ensures hit <==> exists i :: 0 <= i < |registry| && Intersects(Cube(p, 0.9), registry[i])
  {
    var probe := Cube(p, 0.9);
    for i := 0 to |registry|
      invariant forall j :: 0 <= j < i ==> !Intersects(probe, registry[j])
    {
      if Intersects(probe, registry[i]) {
        return true;
      }
    }
    return false;
  }

  lemma EmptyRegistryNeverBlocks(p: Vec3)
    ensures !Blocked([], p)
  {
  }

  /** The shrinking only ever removes collisions: a position blocked by the
      registry is blocked by the unshrunk mesh boxes too. */
  lemma RegistryHitIsMeshHit(meshes: seq<Box>, p: Vec3)
    requires Blocked(Rebuild(meshes), p)
    ensures HitsSome(meshes, Probe(p))
  {
    var reg := Rebuild(meshes);
    var i :| 0 <= i < |reg| && Intersects(Probe(p), reg[i]);
    assert reg[i] == Shrink(meshes[i], Tolerance);
    assert Intersects(reg[i], Probe(p));
    assert Intersects(meshes[i], Probe(p));
  }

  /** A floor is a plane, so its mesh box has no thickness and its shrunk
      box is inverted in y. Such a box only meets probes centred within 0.4
      of the plane: a player kept at or above 0.5 never touches the floor
      at height 0, which holds the player up only through the 0.5 clamp.
      This concerns the registry the level builds when it is set up; the
      per-frame rebuild does not pick plane floors up at all, because its
      floor test asks for a geometry without a height, and a plane has
      one, so from the first frame on the floor is the 0.5 clamp alone. */
  lemma FlatFloorOnlyNearItsPlane(mesh: Box, p: Vec3)
    requires mesh.min.y == mesh.max.y
    ensures !WellFormed(Shrink(mesh, Tolerance))
    ensures Intersects(Probe(p), Shrink(mesh, Tolerance)) ==> mesh.max.y - 0.4 <= p.y <= mesh.max.y + 0.4
  {
  }

  // ---------------------------------------------------------------------
  // Walking
  // ---------------------------------------------------------------------

  /** `Math.abs(y - ground) <= GROUND_TOLERANCE + 0.1` with the tolerance 0. */
  predicate Grounded(y: real, ground: real) {
    -GroundSnap <= y - ground <= GroundSnap
  }

  datatype Player = Player(pos: Vec3, velY: real, spaceLocked: bool)

  /** The start of the tick: standing within the snap band of the ground
      height `ground` stops the player and puts it on the ground, and then
      Space held and unlocked jumps and locks. */
  function GroundAndJump(p: Player, ground: real, spaceHeld: bool): (r: Player)
    ensures r.pos.x == p.pos.x && r.pos.z == p.pos.z
    ensures !Grounded(p.pos.y, ground) ==> r == p
    ensures Grounded(p.pos.y, ground) ==> r.pos.y == ground
    ensures Grounded(p.pos.y, ground) && spaceHeld && !p.spaceLocked ==> r.velY == Walking.JumpStrength
    ensures Grounded(p.pos.y, ground) && !(spaceHeld && !p.spaceLocked) ==> r.velY == 0.0
    ensures r.spaceLocked <==> p.spaceLocked || (Grounded(p.pos.y, ground) && spaceHeld)
  {
    if Grounded(p.pos.y, ground) then
      var on := Player(WithY(p.pos, ground), 0.0, p.spaceLocked);
      if spaceHeld && !p.spaceLocked then on.(velY := Walking.JumpStrength, spaceLocked := true) else on
    else p
  }

  /** The horizontal move by (mx, mz): the full move if its position is
      clear; else the full move raised by the step-up height if that is
      clear; else the x part alone if clear, then the z part alone from the
      x reached. Whatever is committed was tested clear, so the result is
      the old position or a clear one. */
  function ResolveHorizontal(registry: seq<Box>, pos: Vec3, mx: real, mz: real): (r: Vec3)
    ensures r == pos || !Blocked(registry, r)
    ensures !Blocked(registry, Vec3(pos.x + mx, pos.y, pos.z + mz)) ==> r == Vec3(pos.x + mx, pos.y, pos.z + mz)
    ensures Blocked(registry, Vec3(pos.x + mx, pos.y, pos.z + mz)) && !Blocked(registry, Vec3(pos.x + mx, pos.y + StepUp, pos.z + mz))
            ==> r == Vec3(pos.x + mx, pos.y + StepUp, pos.z + mz)
    ensures Blocked(registry, Vec3(pos.x + mx, pos.y, pos.z + mz)) && Blocked(registry, Vec3(pos.x + mx, pos.y + StepUp, pos.z + mz))
            ==> && r.y == pos.y
                && (r.x == pos.x + mx || r.x == pos.x) && (r.z == pos.z + mz || r.z == pos.z)
                && (!Blocked(registry, Vec3(pos.x + mx, pos.y, pos.z)) ==> r.x == pos.x + mx)
                && (r.x != pos.x ==> !Blocked(registry, Vec3(r.x, pos.y, pos.z)))
                && (!Blocked(registry, Vec3(r.x, pos.y, pos.z + mz)) ==> r.z == pos.z + mz)
                && (r.z != pos.z ==> !Blocked(registry, r))
  {
    var target := Vec3(pos.x + mx, pos.y, pos.z + mz);
    if !Blocked(registry, target) then target
    else
      var up := Vec3(target.x, pos.y + StepUp, target.z);
      if !Blocked(registry, up) then up
      else
        var x := if !Blocked(registry, Vec3(target.x, pos.y, pos.z)) then target.x else pos.x;
        var z := if !Blocked(registry, Vec3(x, pos.y, target.z)) then target.z else pos.z;
        Vec3(x, pos.y, z)
  }

  datatype Vertical = Vertical(pos: Vec3, velY: real)

  /** The vertical move by `velY`: a clear test position is taken, but never
      below 0.5, and the velocity is kept; a blocked rise stops without
      moving; a blocked fall lands on the ground height `ground` and stops. */
  function ResolveVertical(registry: seq<Box>, pos: Vec3, velY: real, ground: real): (r: Vertical)
    ensures r.pos.x == pos.x && r.pos.z == pos.z
    ensures !Blocked(registry, WithY(pos, pos.y + velY)) ==>
      r.pos.y == Max(MinHeight, pos.y + velY) && r.pos.y >= MinHeight && r.velY == velY
    ensures Blocked(registry, WithY(pos, pos.y + velY)) && velY > 0.0 ==> r == Vertical(pos, 0.0)
    ensures Blocked(registry, WithY(pos, pos.y + velY)) && velY <= 0.0 ==> r == Vertical(WithY(pos, ground), 0.0)
  {
    var test := WithY(pos, pos.y + velY);
    if !Blocked(registry, test) then Vertical(WithY(pos, Max(MinHeight, test.y)), velY)
    else if velY > 0.0 then Vertical(pos, 0.0)
    else Vertical(WithY(pos, ground), 0.0)
  }

  /** One walking tick along `dir`: ground snap and jump against the ground
      height `g0` under the start position, gravity on the velocity, the
      horizontal resolution, then the vertical one with `g1` the ground
      height under the moved position. The jump lock is set only by a jump. */
  function Tick(registry: seq<Box>, p: Player, dir: Vec3, g0: real, g1: real, spaceHeld: bool): (r: Player)
    ensures r.spaceLocked <==> p.spaceLocked || (Grounded(p.pos.y, g0) && spaceHeld)
    ensures var h := ResolveHorizontal(registry, GroundAndJump(p, g0, spaceHeld).pos,
                                       dir.x * Walking.Speed, dir.z * Walking.Speed);
            r.pos.x == h.x && r.pos.z == h.z
    ensures var q := GroundAndJump(p, g0, spaceHeld);
            var h := ResolveHorizontal(registry, q.pos, dir.x * Walking.Speed, dir.z * Walking.Speed);
            !Blocked(registry, WithY(h, h.y + q.velY + Walking.Gravity)) ==>
              r.pos.y >= MinHeight && r.velY == q.velY + Walking.Gravity
    ensures var q := GroundAndJump(p, g0, spaceHeld);
            var h := ResolveHorizontal(registry, q.pos, dir.x * Walking.Speed, dir.z * Walking.Speed);
            var v := ResolveVertical(registry, h, q.velY + Walking.Gravity, g1);
            r.pos == v.pos && r.velY == v.velY
  {
    var q := GroundAndJump(p, g0, spaceHeld);
    var vel := q.velY + Walking.Gravity;
    var h := ResolveHorizontal(registry, q.pos, dir.x * Walking.Speed, dir.z * Walking.Speed);
    var v := ResolveVertical(registry, h, vel, g1);
    Player(v.pos, v.velY, q.spaceLocked)
  }

  /** Standing still on the ground height with clear space around and just
      below, a tick sinks the player by one gravity step only; it stays in
      the snap band, so the next tick puts it back on the ground. */
  lemma StandingSinksWithinSnap(registry: seq<Box>, p: Player, g0: real, g1: real, spaceHeld: bool)
    requires p.pos.y == g0 && g0 + Walking.Gravity >= MinHeight
    requires !Blocked(registry, p.pos) && !Blocked(registry, WithY(p.pos, g0 + Walking.Gravity))
    requires !(spaceHeld && !p.spaceLocked)
    ensures Tick(registry, p, Origin, g0, g1, spaceHeld) == Player(WithY(p.pos, g0 + Walking.Gravity), Walking.Gravity, p.spaceLocked)
    ensures Grounded(Tick(registry, p, Origin, g0, g1, spaceHeld).pos.y, g0)
  {
    var q := GroundAndJump(p, g0, spaceHeld);
    assert q.pos == p.pos;
    assert ResolveHorizontal(registry, q.pos, 0.0 * Walking.Speed, 0.0 * Walking.Speed) == p.pos;
  }

  // ---------------------------------------------------------------------
  // Keys, drag distance and the dragged box
  // ---------------------------------------------------------------------

  /** The level's input and drag state; `selected` is whether a box is
      being dragged and `boxPos` that box's position. */
  datatype State = State(
    pos: Vec3,
    velY: real,
    keys: Keys,
    spaceHeld: bool,
    spaceLocked: bool,
    look: Look,
    selected: bool,
    dragDistance: real,
    boxPos: Vec3,
    prevPlayerPos: Vec3)

  /** Escape either asks for the pause menu (when the menu script has
      installed it, as it does whenever the game runs from its menu) or,
      without one, leaves the level. */
  datatype KeyResult = KeyResult(state: State, pause: bool, exit: bool)

  /** `handleKeyDown`. With a box selected, F and E are recorded under
      their codes ("KeyF", "KeyE"), which is what the drag reads; otherwise
      every key but Space and Escape is recorded under its lowercase key.
      `pauseMenu` says whether a pause menu is installed. */
  function OnKeyDown(s: State, e: KeyEvent, pauseMenu: bool): (r: KeyResult)
    ensures r.pause <==> e.code == "Escape" && pauseMenu
    ensures r.exit <==> e.code == "Escape" && !pauseMenu
    ensures r.state.spaceLocked == s.spaceLocked
    ensures e.code == "Escape" ==> r.state == s
    ensures e.code == "Space" ==> r.state == s.(spaceHeld := true)
    ensures (e.code == "KeyF" || e.code == "KeyE") && s.selected ==> r.state == s.(keys := s.keys[e.code := true])
    ensures e.code !in {"Space", "Escape"} && !((e.code == "KeyF" || e.code == "KeyE") && s.selected)
            ==> r.state == s.(keys := s.keys[e.key := true])
  {
    if e.code == "Space" then KeyResult(s.(spaceHeld := true), false, false)
    else if e.code == "Escape" then KeyResult(s, pauseMenu, !pauseMenu)
    else if (e.code == "KeyF" || e.code == "KeyE") && s.selected then KeyResult(s.(keys := s.keys[e.code := true]), false, false)
    else KeyResult(s.(keys := s.keys[e.key := true]), false, false)
  }

  /** `handleKeyUp`: Space re-arms the jump; any other key is released
      under both its code and its key, so a released F or E never keeps
      the drag going. */
  function OnKeyUp(s: State, e: KeyEvent): (r: State)
    ensures r.spaceLocked != s.spaceLocked ==> e.code == "Space"
    ensures e.code == "Space" ==> r == s.(spaceHeld := false, spaceLocked := false)
    ensures e.code != "Space" ==> !Held(r.keys, e.code) && !Held(r.keys, e.key)
    ensures e.code != "Space" ==> r == s.(keys := r.keys)
    ensures forall k :: k != e.code && k != e.key && k in s.keys ==> k in r.keys && r.keys[k] == s.keys[k]
  {
    if e.code == "Space" then s.(spaceHeld := false, spaceLocked := false)
    else s.(keys := s.keys[e.code := false][e.key := false])
  }

  function OnMouseMove(s: State, dx: real, dy: real): (r: State)
    ensures PitchInRange(r.look)
    ensures r == s.(look := r.look)
  {
    s.(look := MouseLook(s.look, dx, dy))
  }

  const DragStep: real := 0.5
  const MinDrag: real := 2.0
  const MaxDrag: real := 12.0
  const DefaultDrag: real := 8.0

  predicate DragInRange(d: real) {
    MinDrag <= d <= MaxDrag
  }

  /** The drag-distance update at the start of a frame: only with a box
      selected, F pushes the box out by 0.5 up to 12, otherwise E pulls it
      in by 0.5 down to 2. */
  function UpdateDragDistance(selected: bool, keys: Keys, d: real): (r: real)
    ensures !selected || (!Held(keys, "KeyF") && !Held(keys, "KeyE")) ==> r == d
    ensures selected && Held(keys, "KeyF") ==> r == Min(d + DragStep, MaxDrag) && r <= MaxDrag
    ensures selected && !Held(keys, "KeyF") && Held(keys, "KeyE") ==> r == Max(d - DragStep, MinDrag) && r >= MinDrag
    ensures DragInRange(d) ==> DragInRange(r)
  {
    if selected then
      if Held(keys, "KeyF") then Min(d + DragStep, MaxDrag)
      else if Held(keys, "KeyE") then Max(d - DragStep, MinDrag)
      else d
    else d
  }

  function DragN(n: nat, keys: Keys, d: real): real {
    if n == 0 then d else UpdateDragDistance(true, keys, DragN(n - 1, keys, d))
  }

  /** Holding F for n frames pushes the box out by 0.5 per frame until the
      distance reaches 12, where it stays. */
  lemma {:induction false} HoldingFSaturates(n: nat, keys: Keys, d: real)
    requires Held(keys, "KeyF") && DragInRange(d)
    ensures DragN(n, keys, d) == Min(d + DragStep * (n as real), MaxDrag)
  {
    if n > 0 {
      HoldingFSaturates(n - 1, keys, d);
    }
  }

  /** The box is kept inside the building: one box half-size inside the
      side walls (x in [-14, 14]), between the floor and the ceiling
      (y in [1, 9]) and inside the building and hallway (z in [-19, 19]). */
  const BoxLo: Vec3 := Vec3(-14.0, 1.0, -19.0)
  const BoxHi: Vec3 := Vec3(14.0, 9.0, 19.0)

  predicate InBuilding(p: Vec3) {
    && BoxLo.x <= p.x <= BoxHi.x
    && BoxLo.y <= p.y <= BoxHi.y
    && BoxLo.z <= p.z <= BoxHi.z
  }

  function ClampToBuilding(p: Vec3): (r: Vec3)
    ensures InBuilding(r)
    ensures InBuilding(p) ==> r == p
    ensures p.x < BoxLo.x ==> r.x == BoxLo.x
    ensures p.x > BoxHi.x ==> r.x == BoxHi.x
    ensures p.y < BoxLo.y ==> r.y == BoxLo.y
    ensures p.y > BoxHi.y ==> r.y == BoxHi.y
    ensures p.z < BoxLo.z ==> r.z == BoxLo.z
    ensures p.z > BoxHi.z ==> r.z == BoxHi.z
    ensures BoxLo.x <= p.x <= BoxHi.x ==> r.x == p.x
    ensures BoxLo.y <= p.y <= BoxHi.y ==> r.y == p.y
    ensures BoxLo.z <= p.z <= BoxHi.z ==> r.z == p.z
  {
    Vec3(Clamp(BoxLo.x, BoxHi.x, p.x), Clamp(BoxLo.y, BoxHi.y, p.y), Clamp(BoxLo.z, BoxHi.z, p.z))
  }

  datatype Drag = Drag(boxPos: Vec3, prevPlayerPos: Vec3)

  /** `updateBoxPhysics`. Without a selected box nothing changes (and the
      remembered player position goes stale). Otherwise the box goes to
      `dragDistance` along the camera direction `camDir` from the player,
      plus the player's motion since the last dragged frame, clamped into
      the building, and the player's position is remembered. */
  function UpdateBoxPhysics(selected: bool, player: Vec3, camDir: Vec3, dragDistance: real, d: Drag): (r: Drag)
    ensures !selected ==> r == d
    ensures selected ==> InBuilding(r.boxPos) && r.prevPlayerPos == player
    ensures selected ==>
      var target := Add(Add(player, Scale(camDir, dragDistance)), Sub(player, d.prevPlayerPos));
      InBuilding(target) ==> r.boxPos == target
    ensures selected ==>
      r.boxPos == ClampToBuilding(Add(Add(player, Scale(camDir, dragDistance)), Sub(player, d.prevPlayerPos)))
  {
    if !selected then d
    else
      var target := Add(Add(player, Scale(camDir, dragDistance)), Sub(player, d.prevPlayerPos));
      Drag(ClampToBuilding(target), player)
  }

  /** A player that has not moved since the last dragged frame holds the
      box exactly `dragDistance` along the camera direction, when that
      point is inside the building. */
  lemma StillPlayerHoldsBoxAtDistance(player: Vec3, camDir: Vec3, dragDistance: real, boxPos: Vec3)
    requires InBuilding(Add(player, Scale(camDir, dragDistance)))
    ensures UpdateBoxPhysics(true, player, camDir, dragDistance, Drag(boxPos, player)).boxPos
            == Add(player, Scale(camDir, dragDistance))
  {
    var target := Add(Add(player, Scale(camDir, dragDistance)), Sub(player, player));
    assert target == Add(player, Scale(camDir, dragDistance));
  }

  // ---------------------------------------------------------------------
  // The frame
  // ---------------------------------------------------------------------

  /** `updatePlayer`: one walking tick along the key direction (worked out
      from the facing `h` and the raw direction's length `len`), against
      the registry, with the ground heights `g0` and `g1` from the ray cast. */
  function UpdatePlayer(s: State, h: Heading, len: real, registry: seq<Box>, g0: real, g1: real): (r: State)
    ensures r.keys == s.keys && r.look == s.look && r.selected == s.selected && r.dragDistance == s.dragDistance
    ensures r.spaceLocked <==> s.spaceLocked || (Grounded(s.pos.y, g0) && s.spaceHeld)
    ensures var t := Tick(registry, Player(s.pos, s.velY, s.spaceLocked), MoveDirection(h, IntentOf(s.keys), len), g0, g1, s.spaceHeld);
            r == s.(pos := t.pos, velY := t.velY, spaceLocked := t.spaceLocked)
  {
    var dir := MoveDirection(h, IntentOf(s.keys), len);
    var t := Tick(registry, Player(s.pos, s.velY, s.spaceLocked), dir, g0, g1, s.spaceHeld);
    s.(pos := t.pos, velY := t.velY, spaceLocked := t.spaceLocked)
  }

  /** Side of the movable boxes. */
  const BoxSize: real := 2.0

  /** The mesh box of a movable box centred at `p`. */
  function MovableBox(p: Vec3): Box {
    FromCenterAndSize(p, Vec3(BoxSize, BoxSize, BoxSize))
  }

  /** The registry a frame rebuilds: the static meshes (walls and floors),
      then the movable boxes. `others` are the movable boxes not being
      dragged; the dragged one, when there is one, is registered at its
      current position like any other, so the player collides with it. */
  function FrameRegistry(s: State, staticMeshes: seq<Box>, others: seq<Box>): (r: seq<Box>)
    ensures |r| == |staticMeshes| + |others| + (if s.selected then 1 else 0)
    ensures forall i :: 0 <= i < |staticMeshes| ==> r[i] == Shrink(staticMeshes[i], Tolerance)
    ensures forall i :: 0 <= i < |others| ==> r[|staticMeshes| + i] == Shrink(others[i], Tolerance)
    ensures s.selected ==> r[|r| - 1] == Shrink(MovableBox(s.boxPos), Tolerance)
  {
    Rebuild(staticMeshes + others + (if s.selected then [MovableBox(s.boxPos)] else []))
  }

  /** A position whose probe meets the dragged box (shrunk like every
      registered box) is blocked in that frame. */
  lemma DraggedBoxBlocks(s: State, staticMeshes: seq<Box>, others: seq<Box>, q: Vec3)
    requires s.selected && Intersects(Probe(q), Shrink(MovableBox(s.boxPos), Tolerance))
    ensures Blocked(FrameRegistry(s, staticMeshes, others), q)
  {
    var r := FrameRegistry(s, staticMeshes, others);
    assert Intersects(Probe(q), r[|r| - 1]);
  }

  /** `updateLevel` without the bullets and the goal, in its order: the
      drag distance, the registry rebuilt from the static meshes then the
      movable boxes, the player's tick against that registry, then the
      dragged box, moved from the player's new position with the new
      distance. The distance stays in [2, 12] and a dragged box stays in
      the building; keys, look and selection are left alone. */
  function Frame(s: State, h: Heading, len: real, staticMeshes: seq<Box>, others: seq<Box>,
                 g0: real, g1: real, camDir: Vec3): (r: State)
    ensures DragInRange(s.dragDistance) ==> DragInRange(r.dragDistance)
    ensures s.selected ==> InBuilding(r.boxPos) && r.prevPlayerPos == r.pos
    ensures !s.selected ==> r.boxPos == s.boxPos && r.prevPlayerPos == s.prevPlayerPos
    ensures var t := Tick(FrameRegistry(s, staticMeshes, others), Player(s.pos, s.velY, s.spaceLocked),
                          MoveDirection(h, IntentOf(s.keys), len), g0, g1, s.spaceHeld);
            r.pos == t.pos && r.velY == t.velY && r.spaceLocked == t.spaceLocked
    ensures r.keys == s.keys && r.look == s.look && r.selected == s.selected && r.spaceHeld == s.spaceHeld
    ensures r.dragDistance == UpdateDragDistance(s.selected, s.keys, s.dragDistance)
    ensures var drag := UpdateBoxPhysics(s.selected, r.pos, camDir, r.dragDistance, Drag(s.boxPos, s.prevPlayerPos));
            r.boxPos == drag.boxPos && r.prevPlayerPos == drag.prevPlayerPos
  {
    var d := UpdateDragDistance(s.selected, s.keys, s.dragDistance);
    var registry := FrameRegistry(s, staticMeshes, others);
    var p := UpdatePlayer(s.(dragDistance := d), h, len, registry, g0, g1);
    var drag := UpdateBoxPhysics(p.selected, p.pos, camDir, d, Drag(p.boxPos, p.prevPlayerPos));
    p.(boxPos := drag.boxPos, prevPlayerPos := drag.prevPlayerPos)
  }

  // ---------------------------------------------------------------------
  // Bullets
  // ---------------------------------------------------------------------

  const BulletSpeed: real := 1.0
  const BulletRange: real := 50.0

  /** `step` is the length of `vel`, the distance added per update. */
  datatype Bullet = Bullet(pos: Vec3, vel: Vec3, step: real, traveled: real, active: bool)

  /** A bullet fired along `dir` (of length `dirLen`) from `start`. */
  function NewBullet(start: Vec3, dir: Vec3, dirLen: real): (b: Bullet)
    requires IsLengthOf(dirLen, dir)
    ensures b.active && b.traveled == 0.0 && b.pos == start
    ensures b.vel == Scale(dir, BulletSpeed) && IsLengthOf(b.step, b.vel)
  {
    LengthSqOfScale(dir, BulletSpeed);
    Bullet(start, Scale(dir, BulletSpeed), dirLen * BulletSpeed, 0.0, true)
  }

  /** `Bullet.update`: an active bullet moves by its velocity and counts the
      distance; once the count reaches 50 it is spent. */
  function Update(b: Bullet): (r: Bullet)
    ensures !b.active ==> r == b
    ensures b.active ==> r.pos == Add(b.pos, b.vel) && r.traveled == b.traveled + b.step
    ensures b.active ==> (r.active <==> b.traveled + b.step < BulletRange)
    ensures r.vel == b.vel && r.step == b.step
  {
    if !b.active then b
    else
      var moved := b.(pos := Add(b.pos, b.vel), traveled := b.traveled + b.step);
      if moved.traveled >= BulletRange then moved.(active := false) else moved
  }

  function UpdateN(n: nat, b: Bullet): Bullet {
    if n == 0 then b else UpdateN(n - 1, Update(b))
  }

  lemma {:induction false} SpentBulletStays(n: nat, b: Bullet)
    requires !b.active
    ensures UpdateN(n, b) == b
  {
    if n > 0 {
      SpentBulletStays(n - 1, Update(b));
    }
  }

  /** A bullet with unit speed that has flown k whole units flies m more
      in the next n updates, m = min(n, 50 - k), ending m velocities further
      on, and is still active exactly when k + n < 50. */
  lemma {:induction false} UnitBulletFlight(n: nat, b: Bullet, k: nat)
    requires b.active && b.step == 1.0 && b.traveled == k as real && k < 50
    ensures var m := if n < 50 - k then n else 50 - k;
            && UpdateN(n, b).traveled == (k + m) as real
            && UpdateN(n, b).pos == Add(b.pos, Scale(b.vel, m as real))
            && (UpdateN(n, b).active <==> k + n < 50)
  {
    if n > 0 {
      var b1 := Update(b);
      assert b1.pos == Add(b.pos, b.vel) && b1.vel == b.vel && b1.traveled == (k + 1) as real;
      assert UpdateN(n, b) == UpdateN(n - 1, b1);
      if k + 1 < 50 {
        assert b1.active && b1.step == 1.0;
        UnitBulletFlight(n - 1, b1, k + 1);
        var m := if n < 50 - k then n else 50 - k;
        OneMoreVelocity(b.pos, b.vel, m);
      } else {
        assert !b1.active;
        SpentBulletStays(n - 1, b1);
        OneMoreVelocity(b.pos, b.vel, 1);
      }
    }
  }

  /** Moving by v and then by m - 1 more copies of v is moving by m copies. */
  lemma OneMoreVelocity(p: Vec3, v: Vec3, m: nat)
    requires m >= 1
    ensures Add(Add(p, v), Scale(v, (m - 1) as real)) == Add(p, Scale(v, m as real))
  {
  }
}
