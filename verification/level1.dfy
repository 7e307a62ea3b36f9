/** Level 1, the city: a unit-cube player that walks among skyscraper
    boxes or, after F, flies. Key and mouse handlers and the per-frame
    player update. */
module Level1 {
  import opened Geometry
  import opened Controls
  import Walking
  import Flying

  datatype State = State(
    pos: Vec3,
    velY: real,
    keys: Keys,
    spaceHeld: bool,
    spaceLocked: bool,
    flight: Flying.Flight,
    flyKeyLocked: bool,
    look: Look)

  /** A key press may also ask to leave the level (Escape). */
  datatype KeyResult = KeyResult(state: State, exit: bool)

  /** Switching flight on or off always stops vertical motion. */
  function ToggleFlying(s: State): (r: State)
    ensures r.flight == Flying.Toggle(s.flight, s.pos.y)
    ensures r.velY == 0.0
    ensures r == s.(flight := r.flight, velY := 0.0)
  {
    s.(flight := Flying.Toggle(s.flight, s.pos.y), velY := 0.0)
  }

  /** `handleKeyDown`. Space only marks the jump key held; Escape asks to
      leave; F toggles flight only while its lock is open and then closes
      the lock; every other key (F while locked included) is recorded as
      held. No key press releases the jump lock. */
  function OnKeyDown(s: State, e: KeyEvent): (r: KeyResult)
    ensures r.exit <==> e.code == "Escape"
    ensures r.state.spaceLocked == s.spaceLocked
    ensures r.state.flight.on != s.flight.on <==> e.code == "KeyF" && !s.flyKeyLocked
    ensures e.code == "Space" ==> r.state == s.(spaceHeld := true)
    ensures e.code == "Escape" ==> r.state == s
    ensures e.code == "KeyF" && !s.flyKeyLocked ==> r.state == ToggleFlying(s).(flyKeyLocked := true)
    ensures r.state.keys == s.keys || r.state.keys == s.keys[e.key := true]
    ensures r.state.keys != s.keys ==> e.code != "Space" && e.code != "Escape" && Held(r.state.keys, e.key)
    ensures e.code != "Space" && e.code != "Escape" && !(e.code == "KeyF" && !s.flyKeyLocked) ==>
      r.state == s.(keys := s.keys[e.key := true])
  {
    if e.code == "Space" then KeyResult(s.(spaceHeld := true), false)
    else if e.code == "Escape" then KeyResult(s, true)
    else if e.code == "KeyF" && !s.flyKeyLocked then KeyResult(ToggleFlying(s).(flyKeyLocked := true), false)
    else KeyResult(s.(keys := s.keys[e.key := true]), false)
  }

  /** `handleKeyUp`: releasing Space is the only thing that re-arms the
      jump; releasing F re-arms the flight toggle. */
  function OnKeyUp(s: State, e: KeyEvent): (r: State)
    ensures r.spaceLocked != s.spaceLocked ==> e.code == "Space"
    ensures e.code == "Space" ==> r == s.(spaceHeld := false, spaceLocked := false)
    ensures e.code == "KeyF" ==> r == s.(flyKeyLocked := false)
    ensures e.code != "Space" && e.code != "KeyF" ==> r == s.(keys := s.keys[e.key := false]) && !Held(r.keys, e.key)
  {
    if e.code == "Space" then s.(spaceHeld := false, spaceLocked := false)
    else if e.code == "KeyF" then s.(flyKeyLocked := false)
    else s.(keys := s.keys[e.key := false])
  }

  /** Keyboard auto-repeat sends F again and again while it is held down:
      only the first press toggles flight. */
  lemma HeldFTogglesOnce(s: State, f: KeyEvent)
    requires f.code == "KeyF" && !s.flyKeyLocked
    ensures var once := OnKeyDown(s, f).state;
            once.flight.on == !s.flight.on && OnKeyDown(once, f).state.flight.on == once.flight.on
  {
  }

  function OnMouseMove(s: State, dx: real, dy: real): (r: State)
    ensures PitchInRange(r.look)
    ensures r == s.(look := r.look)
  {
    s.(look := MouseLook(s.look, dx, dy))
  }

  /** Space ascends and C or Control descends while flying. */
  function DescendHeld(keys: Keys): bool {
    Held(keys, "control") || Held(keys, "c")
  }

  /** `updatePlayer`. `h` is the facing the yaw gives (its sine and
      cosine), `len` the length of the raw key direction. Flying and
      walking never touch the keys, the look or the mode itself. */
  function UpdatePlayer(s: State, h: Heading, len: real, boxes: seq<Box>): (r: State)
    ensures r.keys == s.keys && r.look == s.look && r.spaceHeld == s.spaceHeld
    ensures r.flyKeyLocked == s.flyKeyLocked && r.flight.on == s.flight.on
    ensures s.flight.on ==> r.velY == s.velY && r.spaceLocked == s.spaceLocked
    ensures s.flight.on ==> r.pos == s.pos || !HitsSome(boxes, BoxAt(UnitExtent, r.pos))
    ensures !s.flight.on ==> r.pos.y >= 0.5 && r.flight == s.flight
    ensures !s.flight.on ==> (r.spaceLocked && !s.spaceLocked ==> r.velY == Walking.JumpStrength && s.spaceHeld)
    ensures s.flight.on ==>
      var t := Flying.Tick(UnitExtent, boxes, s.pos, s.flight, MoveDirection(h, IntentOf(s.keys), len),
                           s.spaceHeld, DescendHeld(s.keys));
      r == s.(pos := t.pos, flight := t.flight)
    ensures !s.flight.on ==>
      var w := Walking.Tick(Walking.Level1Variant, UnitExtent, boxes,
                            Walking.Walker(s.pos, s.velY, s.spaceLocked), MoveDirection(h, IntentOf(s.keys), len), s.spaceHeld);
      r == s.(pos := w.pos, velY := w.velY, spaceLocked := w.spaceLocked)
  {
    var dir := MoveDirection(h, IntentOf(s.keys), len);
    if s.flight.on then
      var t := Flying.Tick(UnitExtent, boxes, s.pos, s.flight, dir, s.spaceHeld, DescendHeld(s.keys));
      s.(pos := t.pos, flight := t.flight)
    else
      var w := Walking.Tick(Walking.Level1Variant, UnitExtent, boxes,
                            Walking.Walker(s.pos, s.velY, s.spaceLocked), dir, s.spaceHeld);
      s.(pos := w.pos, velY := w.velY, spaceLocked := w.spaceLocked)
  }
}
