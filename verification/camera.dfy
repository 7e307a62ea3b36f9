/** The third-person camera every scene uses: an ideal position on a
    sphere of radius 8 around a point 1.8 above the player, looking at a
    point 1.5 above it. Level 3 pulls the camera in front of whatever the
    ray from the aim point towards the ideal position hits. The sines and
    cosines of yaw and pitch, the ray's unit direction and its hit
    distance are inputs. */
module Camera {
  import opened Optional
  import opened Geometry
  import opened Controls

  const Distance: real := 8.0
  const HeightOffset: real := 1.8
  const AimHeight: real := 1.5
  /** How far in front of an obstacle an occluded camera stops. */
  const Clearance: real := 0.2

  datatype Orientation = Orientation(sinYaw: real, cosYaw: real, sinPitch: real, cosPitch: real)

  predicate UnitAngles(o: Orientation) {
    o.sinYaw * o.sinYaw + o.cosYaw * o.cosYaw == 1.0 && o.sinPitch * o.sinPitch + o.cosPitch * o.cosPitch == 1.0
  }

  /** The centre of the camera's sphere. */
  function Pivot(p: Vec3): Vec3 {
    Vec3(p.x, p.y + HeightOffset, p.z)
  }

  /** Where the camera looks. */
  function Aim(p: Vec3): Vec3 {
    Vec3(p.x, p.y + AimHeight, p.z)
  }

  /** The unobstructed camera position: behind the player's facing by
      8 cos(pitch) horizontally and 8 sin(pitch) above the pivot. */
  function Ideal(p: Vec3, o: Orientation): Vec3 {
    Vec3(p.x - o.sinYaw * Distance * o.cosPitch,
         p.y + o.sinPitch * Distance + HeightOffset,
         p.z - o.cosYaw * Distance * o.cosPitch)
  }

  /** The ideal camera is always exactly 8 from the pivot. */
  lemma IdealOnSphere(p: Vec3, o: Orientation)
    requires UnitAngles(o)
    ensures LengthSq(Sub(Ideal(p, o), Pivot(p))) == Distance * Distance
  {
    var d := Sub(Ideal(p, o), Pivot(p));
    assert d == Vec3(-(o.sinYaw * Distance * o.cosPitch), o.sinPitch * Distance, -(o.cosYaw * Distance * o.cosPitch));
    SphereSum(o.sinYaw, o.cosYaw, o.sinPitch, o.cosPitch, Distance);
  }

  lemma SphereSum(sy: real, cy: real, sp: real, cp: real, r: real)
    requires sy * sy + cy * cy == 1.0 && sp * sp + cp * cp == 1.0
    ensures (-(sy * r * cp)) * (-(sy * r * cp)) + (sp * r) * (sp * r) + (-(cy * r * cp)) * (-(cy * r * cp)) == r * r
  {
    var a := r * cp;
    assert (-(sy * r * cp)) * (-(sy * r * cp)) == (sy * sy) * (a * a);
    assert (-(cy * r * cp)) * (-(cy * r * cp)) == (cy * cy) * (a * a);
    assert (sy * sy) * (a * a) + (cy * cy) * (a * a) == a * a;
    assert a * a == (cp * cp) * (r * r);
    assert (sp * r) * (sp * r) == (sp * sp) * (r * r);
  }

  /** The camera sits behind the player: its horizontal offset points
      against the facing (sin yaw, cos yaw), by 8 cos(pitch). */
  lemma IdealIsBehind(p: Vec3, o: Orientation)
    requires UnitAngles(o)
    ensures var d := Sub(Ideal(p, o), p);
            d.x * o.sinYaw + d.z * o.cosYaw == -(Distance * o.cosPitch)
  {
    var d := Sub(Ideal(p, o), p);
    var k := Distance * o.cosPitch;
    assert d.x == -(o.sinYaw * k) && d.z == -(o.cosYaw * k);
    assert d.x * o.sinYaw + d.z * o.cosYaw == -((o.sinYaw * o.sinYaw + o.cosYaw * o.cosYaw) * k);
  }

  /** Level 3's placement: with the ray from `aim` along the unit direction
      `dir` hitting something at distance `hit`, the camera goes 0.2 short
      of the hit along the ray; with no hit it takes the ideal position. */
  function Place(ideal: Vec3, aim: Vec3, dir: Vec3, hit: Option<real>): (c: Vec3)
    ensures hit.None? ==> c == ideal
    ensures hit.Some? ==> Sub(c, aim) == Scale(dir, hit.value - Clearance)
  {
    match hit
    case None => ideal
    case Some(d) => Add(aim, Scale(dir, d - Clearance))
  }

  /** An occluded camera is on the ray, (d - 0.2) from the aim point and
      0.2 from the hit point; it is no farther out than the ideal position
      was, since the ray only reaches that far. */
  lemma OccludedCameraBeforeObstacle(ideal: Vec3, aim: Vec3, dir: Vec3, d: real)
    requires LengthSq(dir) == 1.0 && Clearance <= d
    requires d * d <= LengthSq(Sub(ideal, aim))
    ensures var c := Place(ideal, aim, dir, Some(d));
            && LengthSq(Sub(c, aim)) == (d - Clearance) * (d - Clearance)
            && LengthSq(Sub(Add(aim, Scale(dir, d)), c)) == Clearance * Clearance
            && LengthSq(Sub(c, aim)) <= LengthSq(Sub(ideal, aim))
  {
    var c := Place(ideal, aim, dir, Some(d));
    var k := d - Clearance;
    assert Sub(c, aim) == Scale(dir, k);
    LengthSqOfScale(dir, k);
    assert LengthSq(Sub(c, aim)) == k * k;
    assert Sub(Add(aim, Scale(dir, d)), c) == Scale(dir, Clearance);
    LengthSqOfScale(dir, Clearance);
    SquareMonotone(k, d);
  }

  lemma SquareMonotone(a: real, b: real)
    requires 0.0 <= a <= b
    ensures a * a <= b * b
  {
    assert a * a <= a * b;
    assert a * b <= b * b;
  }

  /** A hit closer than the clearance puts the camera on the other side
      of the aim point from the ideal position, in front of the player. */
  lemma VeryCloseHitFlipsCamera(ideal: Vec3, aim: Vec3, dir: Vec3, d: real)
    requires LengthSq(dir) == 1.0 && 0.0 <= d < Clearance
    ensures var off := Sub(Place(ideal, aim, dir, Some(d)), aim);
            off.x * dir.x + off.y * dir.y + off.z * dir.z == d - Clearance < 0.0
  {
    var off := Sub(Place(ideal, aim, dir, Some(d)), aim);
    var k := d - Clearance;
    assert off == Scale(dir, k);
    assert off.x * dir.x + off.y * dir.y + off.z * dir.z == k * LengthSq(dir);
  }

  // ---------------------------------------------------------------------
  // Level 3's camera
  // ---------------------------------------------------------------------

  /** The ray from the aim point to the ideal position. The aim point is
      0.3 below the pivot, so its squared length is 64.09 + 4.8 sin(pitch):
      never zero, so the ray always has a direction. */
  lemma AimToIdeal(p: Vec3, o: Orientation)
    requires UnitAngles(o)
    ensures LengthSq(Sub(Ideal(p, o), Aim(p))) == 64.09 + 4.8 * o.sinPitch
    ensures LengthSq(Sub(Ideal(p, o), Aim(p))) >= 59.29
  {
    var v := Sub(Ideal(p, o), Aim(p));
    var k := Distance * o.cosPitch;
    assert v == Vec3(-(o.sinYaw * k), o.sinPitch * Distance + (HeightOffset - AimHeight), -(o.cosYaw * k));
    assert v.x * v.x + v.z * v.z == (o.sinYaw * o.sinYaw + o.cosYaw * o.cosYaw) * (k * k);
    assert k * k == 64.0 * (o.cosPitch * o.cosPitch);
    assert v.y * v.y == 64.0 * (o.sinPitch * o.sinPitch) + 4.8 * o.sinPitch + 0.09;
    SineAtLeastMinusOne(o.sinPitch, o.cosPitch);
  }

  lemma SineAtLeastMinusOne(s: real, c: real)
    requires s * s + c * c == 1.0
    ensures s >= -1.0
  {
    assert s < -1.0 ==> s * s > 1.0 by {
      if s < -1.0 {
        assert s * s > (-1.0) * s;
      }
    }
  }

  /** `updateCamera` of level 3: the ray from the aim point `Aim(p)` towards
      the ideal position, normalised by its length `far`, which is also
      the ray's reach; `hit` is the distance of the first thing the ray
      meets within that reach. */
  function Follow(p: Vec3, o: Orientation, far: real, hit: Option<real>): (c: Vec3)
    ensures hit.None? ==> c == Ideal(p, o)
    ensures hit.Some? && far != 0.0 && LengthSq(Sub(Ideal(p, o), Aim(p))) > 0.0 ==>
      c == Add(Aim(p), Scale(Sub(Ideal(p, o), Aim(p)), (hit.value - Clearance) / far))
  {
    var ideal := Ideal(p, o);
    var aim := Aim(p);
    var dir := Normalize(Sub(ideal, aim), far);
    ScaleNormalized(Sub(ideal, aim), far, if hit.Some? then hit.value - Clearance else 0.0);
    Place(ideal, aim, dir, hit)
  }

  lemma ScaleNormalized(v: Vec3, len: real, k: real)
    ensures len != 0.0 && LengthSq(v) > 0.0 ==> Scale(Normalize(v, len), k) == Scale(v, k / len)
  {
    if len != 0.0 && LengthSq(v) > 0.0 {
      var u := 1.0 / len;
      assert Normalize(v, len) == Scale(v, u);
      assert k / len == u * k;
      assert (v.x * u) * k == v.x * (u * k);
      assert (v.y * u) * k == v.y * (u * k);
      assert (v.z * u) * k == v.z * (u * k);
    }
  }

  /** With the ray's true length as its reach and a hit no closer than
      the clearance, level 3's camera lies on the segment from the aim
      point to the ideal position, strictly short of the ideal position,
      exactly d - 0.2 from the aim point. */
  lemma FollowOnSegment(p: Vec3, o: Orientation, far: real, d: real)
    requires UnitAngles(o) && IsLengthOf(far, Sub(Ideal(p, o), Aim(p)))
    requires Clearance <= d <= far
    ensures far > 0.0
    ensures var t := (d - Clearance) / far;
            && 0.0 <= t < 1.0
            && Follow(p, o, far, Some(d)) == Add(Aim(p), Scale(Sub(Ideal(p, o), Aim(p)), t))
    ensures LengthSq(Sub(Follow(p, o, far, Some(d)), Aim(p))) == (d - Clearance) * (d - Clearance)
  {
    var v := Sub(Ideal(p, o), Aim(p));
    AimToIdeal(p, o);
    RayFacts(v, far, d);
    var c := Follow(p, o, far, Some(d));
    assert c == Place(Ideal(p, o), Aim(p), Normalize(v, far), Some(d));
    assert Sub(c, Aim(p)) == Scale(Normalize(v, far), d - Clearance);
  }

  /** Along a ray of true length `far`, a hit at d in [0.2, far] leaves the
      camera d - 0.2 along the unit direction, a fraction in [0, 1) of the
      ray. */
  lemma RayFacts(v: Vec3, far: real, d: real)
    requires IsLengthOf(far, v) && LengthSq(v) > 0.0 && Clearance <= d <= far
    ensures far > 0.0
    ensures 0.0 <= (d - Clearance) / far < 1.0
    ensures LengthSq(Scale(Normalize(v, far), d - Clearance)) == (d - Clearance) * (d - Clearance)
  {
    PositiveRoot(far, LengthSq(v));
    FractionBelowOne(d - Clearance, far);
    NormalizedIsUnit(v, far);
    LengthSqOfScale(Normalize(v, far), d - Clearance);
  }

  lemma FractionBelowOne(a: real, b: real)
    requires 0.0 <= a < b
    ensures 0.0 <= a / b < 1.0
  {
  }
}
