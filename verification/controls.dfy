/** Input state shared by the hub and the levels: the held-keys map, key
    events, mouse look with its pitch clamp, and the movement direction
    built from the held keys and the facing. */
module Controls {
  import opened Geometry

  /** `keys[name]` in the source: a missing entry reads as not held. */
  type Keys = map<string, bool>

  predicate Held(keys: Keys, k: string) {
    k in keys && keys[k]
  }

  /** A keyboard event: `code` is the physical key ("Space", "KeyF"),
      `key` the produced character, already lower-cased. */
  datatype KeyEvent = KeyEvent(code: string, key: string)

  // ---------------------------------------------------------------------
  // Mouse look
  // ---------------------------------------------------------------------

  /** `Math.PI / 2` as the IEEE double the browser uses. */
  const HalfPi: real := 1.5707963267948966
  const MouseSensitivity: real := 0.0025
  const MaxPitch: real := HalfPi - 0.1

  datatype Look = Look(yaw: real, pitch: real)

  predicate PitchInRange(l: Look) {
    -MaxPitch <= l.pitch <= MaxPitch
  }

  /** `onMouseMove`: the yaw follows the horizontal delta freely, the pitch
      follows the vertical delta but is held strictly short of straight
      up or down, whatever the delta and whatever the previous pitch. */
  function MouseLook(l: Look, dx: real, dy: real): (r: Look)
    ensures r.yaw == l.yaw - dx * MouseSensitivity
    ensures PitchInRange(r)
    ensures -MaxPitch <= l.pitch + dy * MouseSensitivity <= MaxPitch ==> r.pitch == l.pitch + dy * MouseSensitivity
    ensures l.pitch + dy * MouseSensitivity > MaxPitch ==> r.pitch == MaxPitch
    ensures l.pitch + dy * MouseSensitivity < -MaxPitch ==> r.pitch == -MaxPitch
  {
    var pitch := l.pitch + dy * MouseSensitivity;
    Look(l.yaw - dx * MouseSensitivity, Clamp(-MaxPitch, MaxPitch, pitch))
  }

  // ---------------------------------------------------------------------
  // Movement direction
  // ---------------------------------------------------------------------

  /** A facing angle given by its sine and cosine (the trigonometry is done
      by the caller). Forward is (sin, 0, cos). */
  datatype Heading = Heading(sin: real, cos: real)

  predicate UnitHeading(h: Heading) {
    h.sin * h.sin + h.cos * h.cos == 1.0
  }

  function Forward(h: Heading): Vec3 {
    Vec3(h.sin, 0.0, h.cos)
  }

  /** `right = forward x up` with up = (0, 1, 0). */
  function Right(h: Heading): Vec3 {
    Vec3(-h.cos, 0.0, h.sin)
  }

  /** Which of the four movement keys are held. */
  datatype Intent = Intent(forward: bool, back: bool, right: bool, left: bool)

  /** W/arrow-up, S/arrow-down, D/arrow-right, A/arrow-left. */
  function IntentOf(keys: Keys): Intent {
    Intent(
      Held(keys, "w") || Held(keys, "arrowup"),
      Held(keys, "s") || Held(keys, "arrowdown"),
      Held(keys, "d") || Held(keys, "arrowright"),
      Held(keys, "a") || Held(keys, "arrowleft"))
  }

  /** +1, 0 or -1 along one axis of input. */
  function Axis(plus: bool, minus: bool): real {
    (if plus then 1.0 else 0.0) - (if minus then 1.0 else 0.0)
  }

  /** The un-normalised sum of forward and right vectors the keys select. */
  function RawMove(h: Heading, i: Intent): Vec3 {
    Add(Scale(Forward(h), Axis(i.forward, i.back)), Scale(Right(h), Axis(i.right, i.left)))
  }

  /** Forward and right are orthonormal, so the raw move's squared length
      is the number of axes with net input: 0, 1 or 2. */
  lemma RawMoveLengthSq(h: Heading, i: Intent)
    requires UnitHeading(h)
    ensures LengthSq(RawMove(h, i)) ==
      Axis(i.forward, i.back) * Axis(i.forward, i.back) + Axis(i.right, i.left) * Axis(i.right, i.left)
  {
    CombinedLengthSq(h, Axis(i.forward, i.back), Axis(i.right, i.left));
  }

  lemma CombinedLengthSq(h: Heading, a: real, b: real)
    requires UnitHeading(h)
    ensures LengthSq(Add(Scale(Forward(h), a), Scale(Right(h), b))) == a * a + b * b
  {
    var mx := h.sin * a + (-h.cos) * b;
    var mz := h.cos * a + h.sin * b;
    assert Add(Scale(Forward(h), a), Scale(Right(h), b)) == Vec3(mx, 0.0 * a + 0.0 * b, mz);
    FlatLengthSq(mx, mz);
    RotationPreservesLength(a, b, h.sin, h.cos);
    UnitFactor(a * a + b * b, h.sin * h.sin + h.cos * h.cos);
  }

  lemma FlatLengthSq(x: real, z: real)
    ensures LengthSq(Vec3(x, 0.0, z)) == x * x + z * z
  {
  }

  lemma UnitFactor(x: real, u: real)
    requires u == 1.0
    ensures x * u == x
  {
  }

  /** Rotating (a, b) by an angle with sine s and cosine c scales its
      squared length by s^2 + c^2. */
  lemma RotationPreservesLength(a: real, b: real, s: real, c: real)
    ensures (a * s - b * c) * (a * s - b * c) + (a * c + b * s) * (a * c + b * s)
         == (a * a + b * b) * (s * s + c * c)
  {
    assert (a * s - b * c) * (a * s - b * c) == a * a * (s * s) - 2.0 * (a * b) * (s * c) + b * b * (c * c);
    assert (a * c + b * s) * (a * c + b * s) == a * a * (c * c) + 2.0 * (a * b) * (s * c) + b * b * (s * s);
  }

  /** `len` is the length of `v`: the non-negative root of its squared
      length (zero exactly for the zero vector). */
  predicate IsLengthOf(len: real, v: Vec3) {
    len >= 0.0 && len * len == LengthSq(v)
  }

  /** `normalize()` with the length given: divide by it unless the vector
      (or the given length) is zero, in which case the vector is kept. */
  function Normalize(v: Vec3, len: real): Vec3 {
    if LengthSq(v) > 0.0 && len != 0.0 then Scale(v, 1.0 / len) else v
  }

  /** `d` points the same way as `v` in the ground plane: parallel to it
      and with a positive dot product. */
  predicate SameDirection(d: Vec3, v: Vec3) {
    d.x * v.z == d.z * v.x && d.x * v.x + d.z * v.z > 0.0
  }

  /** The facing is a unit vector and `len` the raw move's true length:
      the conditions under which the move direction is normalised. */
  predicate TrueLength(h: Heading, i: Intent, len: real) {
    UnitHeading(h) && IsLengthOf(len, RawMove(h, i))
  }

  /** `_moveDir` after `if (lengthSq > 0) normalize()`. Without net input
      it is zero. With the true length it is a horizontal unit vector
      pointing the way the held keys sum to, so a diagonal is exactly as
      fast as a single key, W alone moves along the facing, S against it,
      D along the right vector and A against it. */
  function MoveDirection(h: Heading, i: Intent, len: real): (d: Vec3)
    ensures d.y == 0.0
    ensures Axis(i.forward, i.back) == 0.0 && Axis(i.right, i.left) == 0.0 ==> d == Origin
    ensures TrueLength(h, i, len) && (Axis(i.forward, i.back) != 0.0 || Axis(i.right, i.left) != 0.0) ==>
      LengthSq(d) == 1.0 && SameDirection(d, RawMove(h, i))
    ensures TrueLength(h, i, len) && Axis(i.right, i.left) == 0.0 ==>
      (Axis(i.forward, i.back) == 1.0 ==> d == Forward(h)) &&
      (Axis(i.forward, i.back) == -1.0 ==> d == Scale(Forward(h), -1.0))
    ensures TrueLength(h, i, len) && Axis(i.forward, i.back) == 0.0 ==>
      (Axis(i.right, i.left) == 1.0 ==> d == Right(h)) &&
      (Axis(i.right, i.left) == -1.0 ==> d == Scale(Right(h), -1.0))
  {
    MoveDirectionSpec(h, i, len);
    Normalize(RawMove(h, i), len)
  }

  /** MoveDirection's contract, stated of the normalised raw move. */
  lemma MoveDirectionSpec(h: Heading, i: Intent, len: real)
    ensures Normalize(RawMove(h, i), len).y == 0.0
    ensures Axis(i.forward, i.back) == 0.0 && Axis(i.right, i.left) == 0.0 ==> Normalize(RawMove(h, i), len) == Origin
    ensures TrueLength(h, i, len) && (Axis(i.forward, i.back) != 0.0 || Axis(i.right, i.left) != 0.0) ==>
      LengthSq(Normalize(RawMove(h, i), len)) == 1.0 && SameDirection(Normalize(RawMove(h, i), len), RawMove(h, i))
    ensures TrueLength(h, i, len) && Axis(i.right, i.left) == 0.0 ==>
      (Axis(i.forward, i.back) == 1.0 ==> Normalize(RawMove(h, i), len) == Forward(h)) &&
      (Axis(i.forward, i.back) == -1.0 ==> Normalize(RawMove(h, i), len) == Scale(Forward(h), -1.0))
    ensures TrueLength(h, i, len) && Axis(i.forward, i.back) == 0.0 ==>
      (Axis(i.right, i.left) == 1.0 ==> Normalize(RawMove(h, i), len) == Right(h)) &&
      (Axis(i.right, i.left) == -1.0 ==> Normalize(RawMove(h, i), len) == Scale(Right(h), -1.0))
  {
    MoveDirectionFlat(h, i, len);
    MoveDirectionIsUnit(h, i, len);
    MoveDirectionCardinal(h, i, len);
  }

  /** The raw move is horizontal and zero without net input, and
      normalising keeps both. */
  lemma MoveDirectionFlat(h: Heading, i: Intent, len: real)
    ensures Normalize(RawMove(h, i), len).y == 0.0
    ensures Axis(i.forward, i.back) == 0.0 && Axis(i.right, i.left) == 0.0 ==> Normalize(RawMove(h, i), len) == Origin
  {
    var raw := RawMove(h, i);
    assert raw.y == 0.0;
    RawMoveWithoutInput(h, i);
  }

  lemma RawMoveWithoutInput(h: Heading, i: Intent)
    ensures Axis(i.forward, i.back) == 0.0 && Axis(i.right, i.left) == 0.0 ==> RawMove(h, i) == Origin
  {
  }

  /** With net input the raw move is not zero, so dividing it by its true
      length gives a unit vector in the same direction. */
  lemma MoveDirectionIsUnit(h: Heading, i: Intent, len: real)
    ensures TrueLength(h, i, len) && (Axis(i.forward, i.back) != 0.0 || Axis(i.right, i.left) != 0.0) ==>
      LengthSq(Normalize(RawMove(h, i), len)) == 1.0 && SameDirection(Normalize(RawMove(h, i), len), RawMove(h, i))
  {
    if TrueLength(h, i, len) && (Axis(i.forward, i.back) != 0.0 || Axis(i.right, i.left) != 0.0) {
      var raw := RawMove(h, i);
      RawMoveNonZero(h, i);
      PositiveRoot(len, LengthSq(raw));
      assert raw.y == 0.0;
      NormalizedIsUnit(raw, len);
      NormalizedSameDirection(raw, len);
    }
  }

  /** Net input on at least one axis makes the raw move non-zero. */
  lemma RawMoveNonZero(h: Heading, i: Intent)
    requires UnitHeading(h)
    requires Axis(i.forward, i.back) != 0.0 || Axis(i.right, i.left) != 0.0
    ensures LengthSq(RawMove(h, i)) > 0.0
  {
    RawMoveLengthSq(h, i);
    var a := Axis(i.forward, i.back);
    var b := Axis(i.right, i.left);
    assert a * a + b * b > 0.0;
  }

  lemma PositiveRoot(len: real, sq: real)
    requires len >= 0.0 && len * len == sq && sq > 0.0
    ensures len > 0.0
  {
    assert len == 0.0 ==> len * len == 0.0;
  }

  lemma NormalizedIsUnit(v: Vec3, len: real)
    requires len > 0.0 && len * len == LengthSq(v)
    ensures LengthSq(Scale(v, 1.0 / len)) == 1.0
  {
    LengthSqOfScale(v, 1.0 / len);
    assert (len * len) * ((1.0 / len) * (1.0 / len)) == 1.0;
  }

  lemma NormalizedSameDirection(v: Vec3, len: real)
    requires len > 0.0 && LengthSq(v) > 0.0 && v.y == 0.0
    ensures SameDirection(Scale(v, 1.0 / len), v)
  {
    var k := 1.0 / len;
    assert k > 0.0;
    assert (v.x * k) * v.z == (v.z * k) * v.x;
    assert (v.x * k) * v.x + (v.z * k) * v.z == k * (v.x * v.x + v.z * v.z);
    assert v.x * v.x + v.z * v.z > 0.0 by {
      assert LengthSq(v) == v.x * v.x + v.y * v.y + v.z * v.z;
    }
  }

  /** A single held axis: the raw move is the facing or right vector (or
      its opposite), already of length 1, so normalising leaves it as is. */
  lemma MoveDirectionCardinal(h: Heading, i: Intent, len: real)
    ensures TrueLength(h, i, len) && Axis(i.right, i.left) == 0.0 ==>
      (Axis(i.forward, i.back) == 1.0 ==> Normalize(RawMove(h, i), len) == Forward(h)) &&
      (Axis(i.forward, i.back) == -1.0 ==> Normalize(RawMove(h, i), len) == Scale(Forward(h), -1.0))
    ensures TrueLength(h, i, len) && Axis(i.forward, i.back) == 0.0 ==>
      (Axis(i.right, i.left) == 1.0 ==> Normalize(RawMove(h, i), len) == Right(h)) &&
      (Axis(i.right, i.left) == -1.0 ==> Normalize(RawMove(h, i), len) == Scale(Right(h), -1.0))
  {
    var a := Axis(i.forward, i.back);
    var b := Axis(i.right, i.left);
    var raw := RawMove(h, i);
    if TrueLength(h, i, len) && b == 0.0 && a != 0.0 {
      assert raw == Scale(Forward(h), a);
      assert LengthSq(Forward(h)) == 1.0;
      SingleAxis(Forward(h), a, raw, len);
    }
    if TrueLength(h, i, len) && a == 0.0 && b != 0.0 {
      assert raw == Scale(Right(h), b);
      assert LengthSq(Right(h)) == 1.0;
      SingleAxis(Right(h), b, raw, len);
    }
  }

  /** A raw move along one unit axis `u`, scaled by +1 or -1, has length 1
      and is left as it is by normalising. */
  lemma SingleAxis(u: Vec3, a: real, raw: Vec3, len: real)
    requires LengthSq(u) == 1.0 && (a == 1.0 || a == -1.0)
    requires raw == Scale(u, a) && IsLengthOf(len, raw)
    ensures Normalize(raw, len) == raw
    ensures a == 1.0 ==> raw == u
  {
    LengthSqOfScale(u, a);
    assert LengthSq(raw) == 1.0;
    UnitRoot(len);
    assert Scale(raw, 1.0 / len) == raw;
  }

  lemma UnitRoot(len: real)
    requires len >= 0.0 && len * len == 1.0
    ensures len == 1.0
  {
    assert (len - 1.0) * (len + 1.0) == len * len - 1.0;
    assert len + 1.0 > 0.0;
  }
}
