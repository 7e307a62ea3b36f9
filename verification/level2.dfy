/** Level 2, the city with a car: A/D turn the car, W/S move along its
    heading, F switches between walking and driving (the gravity-free
    mode), Q/R pick the previous/next car and T/Y the previous/next paint.
    Car models load asynchronously; the load's completion is an event. */
module Level2 {
  import opened Geometry
  import opened Controls
  import Walking
  import Flying

  /** Number of paint textures of each car, in catalogue order. */
  const TextureCounts: seq<nat> := [12, 3, 3, 4, 6, 1, 6, 4]

  function CarCount(): nat {
    |TextureCounts|
  }

  /** Which car and paint are selected and how far its model has loaded:
      `hasModel` is a loaded car model, `loaded` the loaded flag (also set
      by the fallback box), `present` a player object in the scene. */
  datatype Garage = Garage(carIndex: nat, textureIndex: nat, hasModel: bool, loaded: bool, present: bool)

  /** Both indices point into the catalogue. */
  predicate ValidGarage(g: Garage) {
    g.carIndex < CarCount() && g.textureIndex < TextureCounts[g.carIndex]
  }

  /** `switchCar`: the current car or an index past the catalogue changes
      nothing; any other car is selected with its first paint, and its
      model has to load before the player exists again. */
  function SwitchCar(g: Garage, n: nat): (r: Garage)
    ensures n == g.carIndex || n >= CarCount() ==> r == g
    ensures n != g.carIndex && n < CarCount() ==>
      r.carIndex == n && r.textureIndex == 0 && !r.hasModel && !r.loaded && !r.present
    ensures ValidGarage(g) ==> ValidGarage(r)
  {
    if n == g.carIndex || n >= CarCount() then g
    else Garage(n, 0, false, false, false)
  }

  /** The car model load finishing: `ok` when the model loaded, otherwise
      the fallback box stands in (no car model, but a player). */
  function CarLoaded(g: Garage, ok: bool): (r: Garage)
    ensures r.loaded && r.present && r.hasModel == (ok || g.hasModel)
    ensures r.carIndex == g.carIndex && r.textureIndex == g.textureIndex
  {
    g.(hasModel := ok || g.hasModel, loaded := true, present := true)
  }

  /** `switchTexture`: ignored until a car model has loaded and for an
      index past the current car's paints; otherwise selects the paint. */
  function SwitchTexture(g: Garage, t: nat): (r: Garage)
    ensures r.carIndex == g.carIndex && r.hasModel == g.hasModel && r.loaded == g.loaded && r.present == g.present
    ensures !g.hasModel || g.carIndex >= CarCount() ==> r == g
    ensures g.carIndex < CarCount() && t >= TextureCounts[g.carIndex] ==> r == g
    ensures g.hasModel && g.carIndex < CarCount() && t < TextureCounts[g.carIndex] ==> r.textureIndex == t
    ensures ValidGarage(g) ==> ValidGarage(r)
  {
    if !g.hasModel || g.carIndex >= CarCount() then g
    else if t >= TextureCounts[g.carIndex] then g
    else g.(textureIndex := t)
  }

  /** Previous index with wrap-around (Q and T). */
  function Prev(i: nat, count: nat): (r: nat)
    requires 0 < count
    ensures i <= count ==> r < count
    ensures i == 0 ==> r == count - 1
    ensures 0 < i ==> r == i - 1
  {
    if i > 0 then i - 1 else count - 1
  }

  /** Next index with wrap-around (R and Y). */
  function Next(i: nat, count: nat): (r: nat)
    requires 0 < count
    ensures r < count
    ensures i == count - 1 ==> r == 0
    ensures i < count - 1 ==> r == i + 1
  {
    if i < count - 1 then i + 1 else 0
  }

  /** Q undoes R and R undoes Q on every valid index. */
  lemma PrevNextInverse(i: nat, count: nat)
    requires i < count
    ensures Prev(Next(i, count), count) == i && Next(Prev(i, count), count) == i
  {
  }

  /** Pressing Next `count` times from any valid index comes back to it. */
  function NextN(n: nat, i: nat, count: nat): nat
    requires 0 < count
  {
    if n == 0 then i else Next(NextN(n - 1, i, count), count)
  }

  /** n presses of Next land on (i + n) mod count: the catalogue is a cycle. */
  lemma {:induction false} NextNIsModular(n: nat, i: nat, count: nat)
    requires i < count
    ensures NextN(n, i, count) == (i + n) % count
  {
    if n > 0 {
      NextNIsModular(n - 1, i, count);
      ModSucc(i + n - 1, count);
    }
  }

  lemma ModSucc(a: nat, count: nat)
    requires 0 < count
    ensures a % count < count - 1 ==> (a + 1) % count == a % count + 1
    ensures a % count == count - 1 ==> (a + 1) % count == 0
  {
    var q, r := a / count, a % count;
    if r < count - 1 {
      ModUnique(a + 1, count, q, r + 1);
    } else {
      ModUnique(a + 1, count, q + 1, 0);
    }
  }

  /** The remainder is the only one in range: a = q*c + r with 0 <= r < c fixes r. */
  lemma ModUnique(a: int, c: int, q: int, r: int)
    requires 0 < c && 0 <= r < c && a == q * c + r
    ensures a % c == r
  {
    var q', r' := a / c, a % c;
    assert (q - q') * c == r' - r;
    if q - q' >= 1 {
      MulAtLeast(q - q', c);
    } else if q - q' <= -1 {
      MulAtLeast(q' - q, c);
    }
  }

  lemma MulAtLeast(k: int, c: int)
    requires k >= 1 && c > 0
    ensures k * c >= c
  {
    assert k * c == (k - 1) * c + c;
  }

  datatype State = State(
    pos: Vec3,
    velY: real,
    keys: Keys,
    spaceHeld: bool,
    spaceLocked: bool,
    flight: Flying.Flight,
    driveKeyLocked: bool,
    carRotation: real,
    look: Look,
    garage: Garage)

  datatype KeyResult = KeyResult(state: State, exit: bool)

  /** `toggleDriving`. Switching driving on reads the player's height; with
      no player in the scene (a new car still loading) that read throws
      after the mode flag has flipped and the velocity has been zeroed, so
      the ascent is not started: `thrown` reports it. */
  datatype Toggled = Toggled(state: State, thrown: bool)

  function ToggleDriving(s: State): (r: Toggled)
    ensures r.state.flight.on == !s.flight.on && r.state.velY == 0.0
    ensures r.thrown <==> !s.flight.on && !s.garage.present
    ensures !r.thrown ==> r.state == s.(flight := Flying.Toggle(s.flight, s.pos.y), velY := 0.0)
    ensures r.thrown ==> r.state == s.(flight := s.flight.(on := true), velY := 0.0)
  {
    if !s.flight.on && !s.garage.present then
      Toggled(s.(flight := s.flight.(on := true), velY := 0.0), true)
    else
      Toggled(s.(flight := Flying.Toggle(s.flight, s.pos.y), velY := 0.0), false)
  }

  /** `handleKeyDown`. Q/R/T/Y cycle the car and paint with wrap-around and
      never write the keys map, and a valid selection stays valid. */
  function OnKeyDown(s: State, e: KeyEvent): (r: KeyResult)
    ensures r.exit <==> e.code == "Escape"
    ensures r.state.spaceLocked == s.spaceLocked
    ensures ValidGarage(s.garage) ==> ValidGarage(r.state.garage)
    ensures r.state.garage != s.garage ==> e.code in {"KeyQ", "KeyR", "KeyT", "KeyY"}
    ensures r.state.flight.on != s.flight.on <==> e.code == "KeyF" && !s.driveKeyLocked
    ensures e.code == "KeyF" && !s.driveKeyLocked ==> (r.state.driveKeyLocked <==> s.garage.present || s.flight.on)
    ensures e.code == "KeyQ" ==> r.state == s.(garage := SwitchCar(s.garage, Prev(s.garage.carIndex, CarCount())))
    ensures e.code == "KeyR" ==> r.state == s.(garage := SwitchCar(s.garage, Next(s.garage.carIndex, CarCount())))
    ensures r.state.keys == s.keys || (r.state.keys == s.keys[e.key := true] &&
      e.code !in {"Space", "Escape", "KeyE", "KeyQ", "KeyR", "KeyT", "KeyY"})
    ensures e.code == "Space" ==> r.state == s.(spaceHeld := true)
    ensures e.code in {"Escape", "KeyE"} ==> r.state == s
    ensures e.code == "KeyF" && !s.driveKeyLocked ==> r.state.(driveKeyLocked := s.driveKeyLocked) == ToggleDriving(s).state
    ensures e.code == "KeyT" && s.garage.carIndex < CarCount() ==>
      r.state == s.(garage := SwitchTexture(s.garage, Prev(s.garage.textureIndex, TextureCounts[s.garage.carIndex])))
    ensures e.code == "KeyY" && s.garage.carIndex < CarCount() ==>
      r.state == s.(garage := SwitchTexture(s.garage, Next(s.garage.textureIndex, TextureCounts[s.garage.carIndex])))
    ensures e.code in {"KeyT", "KeyY"} && s.garage.carIndex >= CarCount() ==> r.state == s
    ensures e.code !in {"Space", "Escape", "KeyE", "KeyQ", "KeyR", "KeyT", "KeyY"} && !(e.code == "KeyF" && !s.driveKeyLocked) ==>
      r.state == s.(keys := s.keys[e.key := true])
  {
    var g := s.garage;
    if e.code == "Space" then KeyResult(s.(spaceHeld := true), false)
    else if e.code == "Escape" then KeyResult(s, true)
    else if e.code == "KeyF" && !s.driveKeyLocked then
      var t := ToggleDriving(s);
      KeyResult(if t.thrown then t.state else t.state.(driveKeyLocked := true), false)
    else if e.code == "KeyE" then KeyResult(s, false)
    else if e.code == "KeyQ" then KeyResult(s.(garage := SwitchCar(g, Prev(g.carIndex, CarCount()))), false)
    else if e.code == "KeyR" then KeyResult(s.(garage := SwitchCar(g, Next(g.carIndex, CarCount()))), false)
    else if e.code == "KeyT" then
      if g.carIndex < CarCount() then
        KeyResult(s.(garage := SwitchTexture(g, Prev(g.textureIndex, TextureCounts[g.carIndex]))), false)
      else KeyResult(s, false)
    else if e.code == "KeyY" then
      if g.carIndex < CarCount() then
        KeyResult(s.(garage := SwitchTexture(g, Next(g.textureIndex, TextureCounts[g.carIndex]))), false)
      else KeyResult(s, false)
    else KeyResult(s.(keys := s.keys[e.key := true]), false)
  }

  /** With a car model loaded, Y then T gives back the paint it started with. */
  lemma PaintCycleRoundTrip(s: State, y: KeyEvent, t: KeyEvent)
    requires ValidGarage(s.garage) && s.garage.hasModel
    requires y.code == "KeyY" && t.code == "KeyT"
    ensures OnKeyDown(OnKeyDown(s, y).state, t).state.garage == s.garage
  {
    PrevNextInverse(s.garage.textureIndex, TextureCounts[s.garage.carIndex]);
  }

  /** `handleKeyUp`: Space re-arms the jump, F re-arms the mode toggle. */
  function OnKeyUp(s: State, e: KeyEvent): (r: State)
    ensures r.spaceLocked != s.spaceLocked ==> e.code == "Space"
    ensures e.code == "Space" ==> r == s.(spaceHeld := false, spaceLocked := false)
    ensures e.code == "KeyF" ==> r == s.(driveKeyLocked := false)
    ensures e.code != "Space" && e.code != "KeyF" ==> r == s.(keys := s.keys[e.key := false])
  {
    if e.code == "Space" then s.(spaceHeld := false, spaceLocked := false)
    else if e.code == "KeyF" then s.(driveKeyLocked := false)
    else s.(keys := s.keys[e.key := false])
  }

  /** The car model (or its fallback) arriving: it is placed at the origin. */
  function OnCarLoaded(s: State, ok: bool): (r: State)
    ensures r.garage == CarLoaded(s.garage, ok) && r.pos == Origin
    ensures ValidGarage(s.garage) ==> ValidGarage(r.garage)
  {
    s.(garage := CarLoaded(s.garage, ok), pos := Origin)
  }

  const TurnSpeed: real := 0.05

  /** A turns left (+0.05 rad per tick), D turns right; both cancel. */
  function Turn(rotation: real, left: bool, right: bool): (r: real)
    ensures left && !right ==> r == rotation + TurnSpeed
    ensures right && !left ==> r == rotation - TurnSpeed
    ensures left == right ==> r == rotation
  {
    var r1 := if left then rotation + TurnSpeed else rotation;
    if right then r1 - TurnSpeed else r1
  }

  /** Space ascends and C or Control descends while driving. */
  function DescendHeld(keys: Keys): bool {
    Held(keys, "control") || Held(keys, "c")
  }

  /** The car moves along its facing only: W and S count, A and D turn it. */
  function CarDirection(keys: Keys, h: Heading, len: real): Vec3 {
    var intent := IntentOf(keys);
    MoveDirection(h, Intent(intent.forward, intent.back, false, false), len)
  }

  /** `updatePlayer`. Nothing happens without a loaded player. Otherwise
      the car turns, `h` is the heading of the turned car (its sine and
      cosine) and `len` the length of the W/S direction along it; `ext` is
      the car model's box around its position. Driving keeps the car out
      of boxes it was not already in; walking keeps it on or above the
      ground plane y = 0. */
  function UpdatePlayer(s: State, h: Heading, len: real, ext: Extent, boxes: seq<Box>): (r: State)
    ensures !s.garage.present || !s.garage.loaded ==> r == s
    ensures s.garage.present && s.garage.loaded ==>
      r.carRotation == Turn(s.carRotation, IntentOf(s.keys).left, IntentOf(s.keys).right)
    ensures r.keys == s.keys && r.garage == s.garage && r.flight.on == s.flight.on && r.look == s.look
    ensures s.garage.present && s.garage.loaded && s.flight.on ==>
      r.pos == s.pos || !HitsSome(boxes, BoxAt(ext, r.pos))
    ensures s.garage.present && s.garage.loaded && !s.flight.on ==> r.pos.y >= 0.0
    ensures s.garage.present && s.garage.loaded && s.flight.on ==>
      var t := Flying.Tick(ext, boxes, s.pos, s.flight, CarDirection(s.keys, h, len), s.spaceHeld, DescendHeld(s.keys));
      r == s.(carRotation := r.carRotation, pos := t.pos, flight := t.flight)
    ensures s.garage.present && s.garage.loaded && !s.flight.on ==>
      var w := Walking.Tick(Walking.Level2Variant, ext, boxes,
                            Walking.Walker(s.pos, s.velY, s.spaceLocked), CarDirection(s.keys, h, len), s.spaceHeld);
      r == s.(carRotation := r.carRotation, pos := w.pos, velY := w.velY, spaceLocked := w.spaceLocked)
  {
    if !s.garage.present || !s.garage.loaded then s
    else
      var intent := IntentOf(s.keys);
      var rotation := Turn(s.carRotation, intent.left, intent.right);
      var dir := CarDirection(s.keys, h, len);
      if s.flight.on then
        var t := Flying.Tick(ext, boxes, s.pos, s.flight, dir, s.spaceHeld, DescendHeld(s.keys));
        s.(carRotation := rotation, pos := t.pos, flight := t.flight)
      else
        var w := Walking.Tick(Walking.Level2Variant, ext, boxes,
                              Walking.Walker(s.pos, s.velY, s.spaceLocked), dir, s.spaceHeld);
        s.(carRotation := rotation, pos := w.pos, velY := w.velY, spaceLocked := w.spaceLocked)
  }
}
