# Pigeon-Sim-3000: the per-frame actor simulation in Dafny

Pigeon-Sim-3000 is a browser game built on Three.js: a main hub with arcade
machines and three levels (a city to walk or fly through, a city with a
drivable car, and a building with draggable boxes). Every scene runs the same
kind of per-frame player update: a move along the camera's or the car's
facing, a collision test against a list of axis-aligned boxes, gravity, a
floor clamp and a jump that fires once per Space press. This project models
those updates, the key and mouse handlers that feed them, the small clamped
counters (pitch, drag distance, car and paint indices), level 3's camera
placement and bullets, and the toy physics world, and proves what they
promise.

All quantities are reals. What the game gets from trigonometry, `normalize`
and ray casts is passed in:

- a facing is a `Heading(sin, cos)` and the length of the raw key direction
  is a parameter `len`; `Controls.MoveDirection` divides by it, as
  `normalize` does, and promises a unit result whenever sin² + cos² = 1 and
  len is the non-negative root of the raw direction's squared length;
- ground heights under the player (level 3's downward ray), the camera
  ray's hit distance and the ray's length (`far`, the distance from the aim
  point to the ideal camera position) are inputs, as is the camera's unit
  view direction;
- `Box3.setFromObject` is an `Extent` (the mesh's geometry around its
  position) or, for static meshes, the finished box.

Modules, one per file:

| file | module | what it holds |
|---|---|---|
| optional.dfy | `Optional` | `Option` |
| geometry.dfy | `Geometry` | vectors, boxes, closed-interval overlap, the first-hit scan |
| controls.dfy | `Controls` | keys, mouse look, the normalised move direction |
| walking.dfy | `Walking` | the walking tick shared by level 1 and level 2 |
| flying.dfy | `Flying` | level 1's flying and level 2's driving (the same code) |
| level1.dfy, level2.dfy, hub.dfy, level3.dfy | one per scene | handlers and player updates |
| camera.dfy | `Camera` | the follow camera and level 3's occlusion rule |
| physics.dfy | `Physics` | `PhysicsBody`, `PhysicsWorld` |

Level 1 and level 2 differ in one constant of the walking tick: level 1
measures the feet 0.5 below the centre, lands 0.5 above a box top and clamps
to the floor at 0.5; level 2 uses the position itself for all three (0.0).
`Walking.Variant` carries that constant.

## Model

| member | source | states |
|---|---|---|
| Geometry.IntersectsIffCommonPoint | level1.js:354-360 | for well-formed boxes the three-axis closed-interval overlap test holds exactly when the boxes share a point (touching faces count) |
| Geometry.FromCenterAndSize | level3.js:684-687 | the box spans the given size and is centred on the given point; with a non-negative size it is well formed and contains its centre |
| Geometry.Shrink | level3.js:289-295 | every minimum moves up and every maximum down by the tolerance; the box stays well formed exactly when each extent is at least twice the tolerance, and anything meeting the shrunk box met the original |
| Geometry.Clamp | level3.js:420-422 | the result lies in [lo, hi], equals the input inside the range and saturates at the nearer bound outside it |
| Geometry.UnitExtentIsUnitCube | level1.js:84-88 | the 1 x 1 x 1 player's box is the unit cube centred on its position |
| Geometry.FirstHit | level1.js:355-360 | the scan returns the lowest-index intersecting box, and returns nothing exactly when no box intersects |
| Geometry.FirstHitIsUnique | level1.js:375-388 | any index meeting the first-hit description is the one the scan returns |
| Geometry.EmptyRegistryNeverHits | level1.js:33 | an empty box list never reports a hit |
| Controls.MouseLook | level1.js:279-285 | yaw moves by -dx * 0.0025; pitch always ends within ±(π/2 - 0.1), is unchanged inside that range and saturates at the bound it crosses |
| Controls.RawMoveLengthSq | main.js:610-623 | the summed key direction has squared length (forward axis)² + (strafe axis)², so a diagonal is longer than a cardinal move before normalising |
| Controls.MoveDirection | main.js:610-626 | the move direction is horizontal and zero without movement keys (or when opposite keys cancel); for a unit heading and the true length it is otherwise of unit length and points the same way as the summed key direction, so diagonal moves are not faster; W alone gives the facing, S alone its opposite, D alone the right-hand direction and A alone its opposite |
| Walking.HorizontalStep | level1.js:370-388 | the move is undone only when the first box the moved player intersects has its top more than 0.1 above the feet; only that first box is examined; the height never changes |
| Walking.GravityStep | level1.js:391-392 | gravity changes the velocity by -0.03 before the new velocity moves the height |
| Walking.FreeFallClosedForm | level1.js:391-392 | after n ticks of free fall the velocity is v - 0.03n and the height has dropped by 0.03·n(n+1)/2 beyond n·v |
| Walking.VerticalStep | level1.js:394-412 | after gravity, the first box hit decides alone: falling or resting lands on its top plus the variant's offset and grounds; rising restores the pre-tick height; both stop; no hit leaves the fall |
| Walking.FloorClamp | level1.js:415-419 | at or below the floor the actor is put on it, stopped and grounded; above it nothing changes; the height never ends below the floor |
| Walking.Tick | level1.js:366-426 | the position and grounded flag are those of the horizontal step, then the vertical step, then the floor clamp, and so is the velocity unless a jump fires; the tick ends on or above the floor; a jump (0.45) happens exactly when the tick ends grounded with Space held and unlocked; the lock is set only by that jump |
| Walking.RestOnFloorIsStable | level1.js:366-426 | a player resting on the floor with nothing touching and no jump is left exactly where it was |
| Walking.RestOnBoxIsStable | level1.js:394-412 | a player standing on the box it first meets when settling is left exactly where it was |
| Walking.HeldSpaceDoesNotRepeat | level1.js:422-425 | with Space held and the lock set, a tick never jumps and the lock stays |
| Flying.Toggle | level1.js:288-301 | switching on starts an ascent to ten above the current height; switching off keeps the ascent state |
| Flying.Ascend | level1.js:336-343 | an ascending actor below its target climbs 0.2; at or above it snaps to the target and the ascent ends |
| Flying.AscentCompletes | level1.js:336-343 | left alone, an ascent ends after a computed number of ticks exactly at its target with the ascent flag cleared |
| Flying.Tick | level1.js:328-360 | the planned move (ascent, horizontal, Space up, C/Control down) is kept only if it intersects no box; any hit restores the whole pre-tick position |
| Flying.TickKeepsClear | level1.js:354-360 | an actor clear of every box stays clear after a flying tick |
| Level1.ToggleFlying | level1.js:288-301 | toggling flight zeroes the vertical velocity and toggles the mode as Flying.Toggle does |
| Level1.OnKeyDown | level1.js:245-258 | Escape and only Escape leaves; F toggles flight exactly when its lock is open; no key press touches the jump lock; Space and Escape never write the keys map; every other key, including a locked F, is recorded as held and nothing else changes |
| Level1.OnKeyUp | level1.js:260-269 | releasing Space clears held and lock and is the only release that changes the lock; releasing F re-arms the toggle; other keys are marked released |
| Level1.HeldFTogglesOnce | level1.js:251-254 | auto-repeated F presses toggle flight once |
| Level1.OnMouseMove | level1.js:279-285 | only the look changes and the pitch stays within its range |
| Level1.UpdatePlayer | level1.js:308-433 | flying is exactly one `Flying.Tick` of the unit cube along the key direction, with Space up and C/Control down, and walking exactly one level-1 `Walking.Tick`; nothing else changes; so flying never changes the velocity or jump lock and leaves the player unchanged or clear of every box, and walking leaves the player at or above 0.5 and sets the lock only with a jump |
| Level2.SwitchCar | level2.js:631-656 | the current index or an index past the catalogue changes nothing; another car is selected with paint 0 and must load again; valid indices stay valid |
| Level2.CarLoaded | level2.js:244-327 | a finished load (the model or the fallback box) makes the player present and loaded; only a loaded model counts as a car model |
| Level2.SwitchTexture | level2.js:733-739 | ignored without a car model or for an index past the current car's paints, otherwise selects that paint; nothing else changes |
| Level2.Prev | level2.js:859 | one step back, wrapping from 0 to the last index; a valid index stays valid |
| Level2.Next | level2.js:863 | one step forward, wrapping from the last index to 0; the result is always in range |
| Level2.PrevNextInverse | level2.js:857-864 | Q undoes R and R undoes Q |
| Level2.NextNIsModular | level2.js:861-864 | n presses of Next land on (i + n) mod count |
| Level2.ToggleDriving | level2.js:914-926 | the mode flips and the velocity is zeroed; switching on with no player throws after those two writes, so no ascent starts |
| Level2.OnKeyDown | level2.js:840-884 | Escape alone leaves; Escape and E change nothing; Space only sets held; F flips the mode exactly when unlocked, and the lock is then set unless the toggle threw; Q/R switch cars; T selects the previous and Y the next paint of the current car, and do nothing past the catalogue; only Q/R/T/Y change the selection and a valid selection stays valid; every other key, including a locked F, is recorded as held and nothing else changes |
| Level2.PaintCycleRoundTrip | level2.js:865-880 | with a car model loaded, Y then T gives back the starting paint |
| Level2.OnKeyUp | level2.js:886-895 | Space clears held and lock; F re-arms the toggle; other keys are marked released |
| Level2.OnCarLoaded | level2.js:268-272 | a finished load puts the car at the origin and keeps a valid selection valid |
| Level2.Turn | level2.js:942-947 | A adds 0.05, D subtracts 0.05, both or neither leave the rotation unchanged |
| Level2.UpdatePlayer | level2.js:934-1069 | with no player or no finished load nothing changes; otherwise the car turns, and driving is exactly one `Flying.Tick` of the car's box along its W/S direction while walking is exactly one level-2 `Walking.Tick`, nothing else changing; so driving leaves it unchanged or clear of every box and walking leaves it at or above 0 |
| Hub.OnKeyDown | main.js:514-552 | Escape only asks for the pause menu to open, or to close when the game is already paused; Space only sets held; any other key is marked held; no press touches the jump lock |
| Hub.OnKeyUp | main.js:555-564 | only releasing Space clears the lock; other keys are marked released |
| Hub.OnMouseMove | main.js:579-589 | only the look changes and the pitch stays within its range |
| Hub.Slide | main.js:633-650 | any arcade-box intersection after the move restores x and z; the height is not touched; with no arcade boxes the move stands |
| Hub.Tick | main.js:628-671 | the player ends at or above 0.5; reaching the floor stops it; a jump (0.45) happens only from the floor branch with Space held and unlocked, and sets the lock |
| Hub.Advance | main.js:599-675 | outside the hub or with no player nothing changes; otherwise the result is exactly one `Hub.Tick` of the player, so it stays at or above 0.5 and the lock is set only by a jump from the floor; keys, look, level and arcade boxes are untouched |
| Hub.UpdatePlayer | main.js:599-675 | the same, with the tick's move direction computed from the keys and the facing |
| Hub.RestIsStable | main.js:653-671 | a player standing on the floor with no move and no jump stays exactly where it is |
| Hub.SlideKeepsClear | main.js:641-650 | a player clear of every arcade box stays clear after the slide |
| Level3.AddCollisionBox | level3.js:289-295 | the registry grows by one box, the mesh's box with each minimum raised and each maximum lowered by 0.05, after the old boxes unchanged |
| Level3.Rebuild | level3.js:773-793 | the rebuilt registry holds, in order, each given mesh box shrunk by 0.05 |
| Level3.FrameRegistry | level3.js:773-795 | the frame's registry holds every static box, every other movable mesh and, while dragging, the dragged box (a 2 x 2 x 2 cube at the box's position), each shrunk by 0.05; the dragged box is listed last here, where the source keeps it among the movable boxes, which changes no collision test since every test asks whether some box is hit |
| Level3.DraggedBoxBlocks | level3.js:790-795 | a position whose 0.9 probe meets the dragged box, shrunk by 0.05 like every registered box, is blocked in that frame, so a dragged box is solid to the player |
| Level3.CheckCollision | level3.js:683-697 | true exactly when the 0.9 cube centred on the position intersects some registered box |
| Level3.EmptyRegistryNeverBlocks | level3.js:683-697 | an empty registry never reports a collision |
| Level3.RegistryHitIsMeshHit | level3.js:289-295 | a position blocked by the shrunk registry is blocked by the mesh boxes themselves |
| Level3.FlatFloorOnlyNearItsPlane | level3.js:159-166 | a plane floor's shrunk box is inverted and only meets probes centred within 0.4 of the plane |
| Level3.GroundAndJump | level3.js:563-574 | within 0.1 of the ground height the player is put on it and stopped, then jumps (0.45) if Space is held and unlocked; the lock is set only by that jump |
| Level3.ResolveHorizontal | level3.js:578-603 | the full move if clear; else the full move 0.5 higher if clear; else x alone then z alone from the x reached, each only if clear; the result is the old position or a clear one |
| Level3.ResolveVertical | level3.js:605-619 | a clear move sets y to max(0.5, y + v) and keeps the velocity; a blocked rise stops in place; a blocked fall lands on the ground height and stops |
| Level3.Tick | level3.js:544-622 | the jump lock is set only from the ground with Space held; the position and velocity are those of the vertical resolution (with the ground height under the moved position) applied after the horizontal resolution, starting from the ground-snapped, possibly jumped player with gravity added; a clear vertical move leaves y at or above 0.5 |
| Level3.StandingSinksWithinSnap | level3.js:563-619 | standing still on raised ground sinks by one gravity step per tick and stays within the snap band, so the next tick puts it back |
| Level3.OnKeyDown | level3.js:502-516 | with a box selected F and E are recorded under their codes, otherwise keys under their lowercase names; Escape changes no state and asks for the pause menu when one is installed, otherwise leaves; no other key does either |
| Level3.OnKeyUp | level3.js:518-526 | a released key is cleared under both its code and its name; only Space clears the lock |
| Level3.OnMouseMove | level3.js:536-542 | only the look changes and the pitch stays within its range |
| Level3.UpdateDragDistance | level3.js:763-771 | with a box selected F adds 0.5 up to 12, else E subtracts 0.5 down to 2; without a selection nothing changes; [2, 12] is kept |
| Level3.HoldingFSaturates | level3.js:763-766 | n frames of F give min(d + 0.5n, 12) |
| Level3.ClampToBuilding | level3.js:416-422 | the target ends in x ∈ [-14, 14], y ∈ [1, 9], z ∈ [-19, 19]; each axis is unchanged inside its range and saturates at the bound it crosses, independently of the others |
| Level3.UpdateBoxPhysics | level3.js:401-431 | with a box selected it goes exactly to the clamped point: the drag distance along the camera direction from the player, plus the player's motion since the last frame; the player's position is remembered; otherwise nothing changes |
| Level3.StillPlayerHoldsBoxAtDistance | level3.js:405-414 | a player who has not moved holds the box exactly the drag distance along the camera direction |
| Level3.UpdatePlayer | level3.js:544-622 | the player's position, velocity and lock are exactly those of one `Level3.Tick` along the key direction, and nothing else changes; the lock is set only from the ground with Space held |
| Level3.Frame | level3.js:760-797 | the frame runs in the source's order: the drag distance is updated from F/E, then the player's tick runs against a registry holding the static boxes, the other movable meshes and, while dragging, the box at its position before this frame's drag; the dragged box goes where the box update puts it from the player's new position with the new distance; keys, look and selection are unchanged; so one frame keeps the drag distance in [2, 12], keeps a dragged box in the building and remembers the player only while dragging |
| Level3.NewBullet | level3.js:6-16 | a new bullet is active at the start point with velocity the direction times speed 1 and has travelled 0 |
| Level3.Update | level3.js:19-28 | an active bullet moves by its velocity, counts its length, and is spent once the count reaches 50; a spent one never changes |
| Level3.SpentBulletStays | level3.js:20 | a spent bullet stays as it is under any number of updates |
| Level3.UnitBulletFlight | level3.js:19-28 | a unit-speed bullet is active for exactly 50 updates and ends 50 velocities from where it started |
| Camera.AimToIdeal | level3.js:701-713 | the ray from the aim point (1.5 above the player) to the ideal position (8 from the point 1.8 above it) has squared length 64.09 + 4.8·sin(pitch), never below 59.29, so it always has a direction |
| Camera.Follow | level3.js:699-726 | with no hit the camera takes the ideal position; with a hit at d it lies on the ray from the aim point toward the ideal position at fraction (d - 0.2)/far |
| Camera.FollowOnSegment | level3.js:712-723 | when far is the true ray length and the hit lies between 0.2 and far, the camera lies strictly between the aim point and the ideal position (fraction in [0, 1)), d - 0.2 from the aim point |
| Camera.IdealOnSphere | level1.js:435-442 | the unobstructed camera is always exactly 8 from the point 1.8 above the player |
| Camera.IdealIsBehind | level1.js:440-441 | its horizontal offset points against the facing, by 8·cos(pitch) |
| Camera.Place | level3.js:711-726 | with no hit the camera takes the ideal position; with a hit at d it goes to aim + dir·(d - 0.2) |
| Camera.OccludedCameraBeforeObstacle | level3.js:714-723 | an occluded camera is d - 0.2 from the aim point, 0.2 short of the obstacle and no farther out than the ideal position |
| Camera.VeryCloseHitFlipsCamera | level3.js:719-723 | a hit closer than 0.2 puts the camera on the other side of the aim point |
| Physics.NewBody | physics/physics.js:34-43 | construction fails exactly when the position or the velocity is missing, since the Three.js defaults are unreachable; otherwise the given vectors are stored, each other missing option takes its default (1, 1, 0.5, moving) and each given one is stored |
| Physics.NewBodyFromOwnFields | physics/physics.js:34-43 | building a body from its own fields gives the same body back |
| Physics.NewWorld | physics/physics.js:3-7 | construction fails exactly when no gravity is given, since the default is unreachable; otherwise the world is empty with the given gravity |
| Physics.AddBody | physics/physics.js:9-11 | the body is appended and the existing bodies keep their order |
| Physics.AddAllAppends | physics/physics.js:9-11 | adding a list of bodies one by one appends the list, in order, after the existing bodies |
| Physics.NewWorldThenAddAll | physics/physics.js:3-11 | a new world with a world's gravity, given that world's bodies one by one, is that world again: same gravity, same bodies in the same order |
| Physics.StepBody | physics/physics.js:14-27 | a static body is unchanged; otherwise velocity gains g·dt before the position moves by the new velocity; on ground contact y becomes the radius and the y-velocity is reversed and scaled by the restitution; x and z velocity are never touched by the bounce |
| Physics.Step | physics/physics.js:13-29 | every body is stepped in place; static bodies are never modified and every moving body ends with y at or above its radius |
| Physics.RestingBodyBounces | physics/physics.js:18-27 | a body at rest on the ground is put back on it each step with a y-velocity of -restitution·g·dt, pointing up when the time step and the restitution are positive |
| Physics.FreeStepFromRest | physics/physics.js:18-21 | above the ground a body at rest moves by g·dt², the semi-implicit order, not g·dt²/2 |

## Left out

- Rendering, lighting, shadows, roads, decorative meshes, HUD and menu elements, pointer-lock wiring, `alert`, `setTimeout` and the goal checks with their return to the hub: they hold no simulation logic.
- Model, material, texture and audio loading: the car load's completion is the `Level2.OnCarLoaded` event; the E key's engine sound is a no-op.
- Three.js ray casting: `findGroundHeight` (ground heights are the inputs `g0`, `g1`), the camera ray (its hit distance is an input) and the hub's `checkInteractions`.
- Trigonometry, `normalize`, `Vector3.length` and `getWorldDirection`: sines, cosines, lengths and the camera direction are parameters; the contracts that depend on them assume their defining equations (sin² + cos² = 1, len² = squared length).
- IEEE floating point: every quantity is a real, so rounding is not modelled.
- `Math.random` building placement and `generateSkyscrapers`: the box lists are parameters.
- Which level-3 meshes count as walls or floors in `updateLevel`: `Level3.Frame` takes the static mesh boxes and the boxes of the other movable meshes as parameters; only the dragged box's position is tied to the level state.
- `updateBoxCollision`, `updateBullets`, `checkBulletCollisions` and box selection by shooting: only `Bullet.update` and the drag of a selected box are modelled.
- `e.key.toLowerCase()`: key events carry their key already lower-cased; there is no case folding on strings here.
- Asynchrony: overlapping car loads after quick Q/R presses are not modelled; a load completion is one event.
- Level2.UpdatePlayer: the heading used for W/S is an input that should be the sine and cosine of the turned rotation, and the car's extent is an input that should be its rotated box; neither is tied to `carRotation` by the contract.
- Level1.UpdatePlayer, Level3.UpdatePlayer: the `!player` guard (level1.js:309, level3.js:545) is not modelled, since both levels create their player in their setup, before the first frame.
- Camera placement for level 1, level 2 and the hub is `Camera.Ideal` alone; `lookAt` orientation is not modelled.
- Physics.NewBody: the constructor's `clone()` copies are implicit, since bodies are values here.
- Physics.NewWorld: the world keeps the caller's gravity vector itself, not a clone, so a later change to that vector would change the world's gravity; vectors are values here, so that aliasing is not modelled.
- Physics.Step: a body added twice is one object stepped twice per step in the source; here the two entries are independent values, each stepped once.
